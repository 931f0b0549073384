/**
 * The round skeleton: the module-level `GameState` of `game_logic.py`, the
 * `bot_data` dictionary `start_game` writes, and the transitions between them.
 *
 * Timers become events: `start_round` arms a countdown, and a `CountdownEnds`
 * event is the moment one of the armed countdowns finishes sleeping. Since no
 * countdown is ever cancelled, the world counts how many are still armed.
 */
module Round {
  import opened Wrappers
  import opened Store
  import opened Handlers

  /** A stored round bet: `game_state.bets[user_id] = (amount, choice)`. */
  datatype RoundBet = RoundBet(amount: int, choice: string)

  /**
   * `GameState`. `highestBetUser` is the attribute `start_round` creates under a
   * name the rest of the code never reads; it is absent until the first round.
   */
  datatype GameState = GameState(
    running: bool,
    bettingOpen: bool,
    bets: seq<(UserId, RoundBet)>,   // a dict, in insertion order
    highestBetUserId: seq<UserId>,
    highestBetUser: Option<seq<UserId>>,
    countdownTask: Option<nat>)   // the armed countdown's length in seconds

  /** `GameState()` as constructed at import time. */
  const InitialGame := GameState(false, false, [], [], None, None)

  /**
   * The keys of `bot_data` the core touches. A key that was never written reads
   * as its empty value, which is how `bot_data.get("running")` treats it.
   */
  datatype BotData = BotData(
    running: bool,
    gameNum: Option<int>,
    highestBetUserId: seq<UserId>,
    betUsers: map<UserId, RoundBet>,
    countdownTask: Option<nat>)

  const InitialBot := BotData(false, None, [], map[], None)

  /** What the bot says to the chat or to a user. */
  datatype Announcement =
    | RoundOpened                         // 🔔 新一轮游戏开始！…
    | BettingClosed                       // ⏰ 押注结束，投掷筛子！
    | NoBettors                           // 无人押注，本轮结束。
    | DiceResult(total: int, result: string)
    | Won(user: UserId, amount: int)      // 恭喜，你赢了 …
    | Lost(user: UserId, amount: int)     // 很遗憾，你输了 …
    | GameStarted(gameNum: int)           // 游戏开始！🎲 倒计时 … 秒一轮！
    | AlreadyRunning                      // 游戏已经在进行中！
    | EndNotice(name: string)             // "{username}，这个是结束游戏"
    | AdminDbUnavailable
    | Said(reply: Reply)                  // a reply of `handle_message`

  /** The countdown length `start_round` passes to `countdown`. */
  const CountdownSeconds: nat := 20

  datatype World = World(bot: BotData, game: GameState, armed: nat, db: Db)

  datatype Step = Step(world: World, said: seq<Announcement>)

  // ---------------------------------------------------------------------------
  // start_round
  // ---------------------------------------------------------------------------

  function StartRound(w: World): (r: Step)
    ensures r.world.game.bettingOpen && r.world.game.bets == []
    ensures r.world.game.highestBetUser == Some([])
    ensures r.world.game.highestBetUserId == w.game.highestBetUserId
    ensures r.world.game.running == w.game.running
    ensures r.world.game.countdownTask == Some(CountdownSeconds)
    ensures r.world.armed == w.armed + 1
    ensures r.world.bot == w.bot && r.world.db == w.db
    ensures r.said == [RoundOpened]
  {
    var g := w.game.(bettingOpen := true, bets := [], highestBetUser := Some([]),
                     countdownTask := Some(CountdownSeconds));
    Step(w.(game := g, armed := w.armed + 1), [RoundOpened])
  }

  // ---------------------------------------------------------------------------
  // countdown, handle_dice_roll, settle_bets
  // ---------------------------------------------------------------------------

  type Face = x: int | 1 <= x <= 6 witness 1

  datatype Roll = Roll(first: Face, second: Face, third: Face)

  function Total(d: Roll): (t: int)
    ensures 3 <= t <= 18
  {
    d.first + d.second + d.third
  }

  /** `"跌" if total_points >= 9 else "涨"`. */
  function Label(total: int): string {
    if total >= 9 then "跌" else "涨"
  }

  // Counting the 216 rolls by label. `CountThird(r, a, b, k)` counts the rolls
  // `Roll(a, b, c)` with `c` in 1..k whose total is labelled `r`; the two outer
  // counts sum it over the second and the first face.

  function CountThird(result: string, a: Face, b: Face, k: nat): (n: nat)
    requires k <= 6
    ensures n <= k
  {
    if k == 0 then 0
    else CountThird(result, a, b, k - 1) + (if Label(Total(Roll(a, b, k))) == result then 1 else 0)
  }

  function CountSecond(result: string, a: Face, k: nat): nat
    requires k <= 6
  {
    if k == 0 then 0 else CountSecond(result, a, k - 1) + CountThird(result, a, k, 6)
  }

  function CountRolls(result: string, k: nat): nat
    requires k <= 6
  {
    if k == 0 then 0 else CountRolls(result, k - 1) + CountSecond(result, k, 6)
  }

  function Clamp(x: int, k: nat): nat {
    if x < 0 then 0 else if x > k then k else x
  }

  /** With the first two faces fixed, the third faces giving 涨 are 1 .. 8 - a - b. */
  lemma {:induction false} RisingThirds(a: Face, b: Face, k: nat)
    requires k <= 6
    ensures CountThird("涨", a, b, k) == Clamp(8 - a - b, k)
    decreases k
  {
    if k > 0 {
      RisingThirds(a, b, k - 1);
    }
  }

  lemma RisingSeconds(a: Face)
    ensures CountSecond("涨", a, 6) == Clamp(7 - a, 6) + Clamp(6 - a, 6) + Clamp(5 - a, 6)
      + Clamp(4 - a, 6) + Clamp(3 - a, 6) + Clamp(2 - a, 6)
  {
    RisingThirds(a, 1, 6);
    assert CountSecond("涨", a, 1) == Clamp(7 - a, 6);
    RisingThirds(a, 2, 6);
    assert CountSecond("涨", a, 2) == CountSecond("涨", a, 1) + Clamp(6 - a, 6);
    RisingThirds(a, 3, 6);
    assert CountSecond("涨", a, 3) == CountSecond("涨", a, 2) + Clamp(5 - a, 6);
    RisingThirds(a, 4, 6);
    assert CountSecond("涨", a, 4) == CountSecond("涨", a, 3) + Clamp(4 - a, 6);
    RisingThirds(a, 5, 6);
    assert CountSecond("涨", a, 5) == CountSecond("涨", a, 4) + Clamp(3 - a, 6);
    RisingThirds(a, 6, 6);
  }

  /** The rolls labelled 涨 with first face `a`: 21, 15, 10, 6, 3 and 1. */
  lemma RisingFirst(rise: string, a: Face)
    requires rise == "涨"
    ensures CountRolls(rise, a) == CountRolls(rise, a - 1) + [21, 15, 10, 6, 3, 1][a - 1]
  {
    RisingSeconds(a);
  }

  lemma RisingRolls(rise: string)
    requires rise == "涨"
    ensures CountRolls(rise, 6) == 56
  {
    RisingFirst(rise, 1);
    RisingFirst(rise, 2);
    RisingFirst(rise, 3);
    RisingFirst(rise, 4);
    RisingFirst(rise, 5);
    RisingFirst(rise, 6);
  }

  /** Every roll carries exactly one of the two labels. */
  lemma {:induction false} ThirdsSplit(rise: string, fall: string, a: Face, b: Face, k: nat)
    requires rise == "涨" && fall == "跌" && k <= 6
    ensures CountThird(rise, a, b, k) + CountThird(fall, a, b, k) == k
    decreases k
  {
    if k > 0 {
      ThirdsSplit(rise, fall, a, b, k - 1);
    }
  }

  lemma {:induction false} SecondsSplit(rise: string, fall: string, a: Face, k: nat)
    requires rise == "涨" && fall == "跌" && k <= 6
    ensures CountSecond(rise, a, k) + CountSecond(fall, a, k) == 6 * k
    decreases k
  {
    if k > 0 {
      SecondsSplit(rise, fall, a, k - 1);
      ThirdsSplit(rise, fall, a, k, 6);
    }
  }

  lemma {:induction false} RollsSplit(rise: string, fall: string, k: nat)
    requires rise == "涨" && fall == "跌" && k <= 6
    ensures CountRolls(rise, k) + CountRolls(fall, k) == 36 * k
    decreases k
  {
    if k > 0 {
      RollsSplit(rise, fall, k - 1);
      SecondsSplit(rise, fall, k, 6);
    }
  }

  /**
   * Of the 216 equally likely rolls, 56 are labelled 涨 and 160 跌: the split at
   * 9 is far from even.
   */
  lemma LabelCounts()
    ensures CountRolls("涨", 6) == 56 && CountRolls("跌", 6) == 160
  {
    var rise, fall := "涨", "跌";
    RisingRolls(rise);
    RollsSplit(rise, fall, 6);
  }

  /**
   * `settle_bets`: one message per stored bet, in the dictionary's order; a user
   * wins exactly when their stored choice is the result's label.
   */
  function Settle(result: string, bets: seq<(UserId, RoundBet)>): (r: seq<Announcement>)
    ensures |r| == |bets|
    ensures forall i :: 0 <= i < |r| ==>
      (r[i].Won? <==> bets[i].1.choice == result) && (r[i].Won? || r[i].Lost?)
    ensures forall i :: 0 <= i < |r| ==> r[i].user == bets[i].0 && r[i].amount == bets[i].1.amount
  {
    seq(|bets|, i requires 0 <= i < |bets| =>
      if bets[i].1.choice == result then Won(bets[i].0, bets[i].1.amount) else Lost(bets[i].0, bets[i].1.amount))
  }

  /** After a roll, a stored choice wins exactly when it names the side of 9 the total falls on. */
  lemma SettleByTotal(d: Roll, bets: seq<(UserId, RoundBet)>, i: nat)
    requires i < |bets|
    ensures Settle(Label(Total(d)), bets)[i].Won? <==>
      (bets[i].1.choice == "跌" && Total(d) >= 9) || (bets[i].1.choice == "涨" && Total(d) <= 8)
  {
  }

  /**
   * The roll path. With no highest bettor, nothing is rolled and a new round
   * starts; otherwise three dice are rolled, labelled, settled and a new round
   * starts. (The source calls `start_round` there with one argument where it
   * takes two; the model starts the round it evidently meant to.)
   */
  function HandleDiceRoll(w: World, d: Roll): (r: Step)
    ensures |w.game.highestBetUserId| == 0 ==> r.said == [NoBettors, RoundOpened]
    ensures |w.game.highestBetUserId| > 0 ==>
      r.said == [DiceResult(Total(d), Label(Total(d)))] + Settle(Label(Total(d)), w.game.bets) + [RoundOpened]
    ensures r.world.db == w.db && r.world.bot == w.bot
    ensures r.world.game.bettingOpen && r.world.game.bets == []
    ensures r.world.armed == w.armed + 1
  {
    if |w.game.highestBetUserId| == 0 then
      var s := StartRound(w);
      Step(s.world, [NoBettors] + s.said)
    else
      var result := Label(Total(d));
      var s := StartRound(w);
      Step(s.world, [DiceResult(Total(d), result)] + Settle(result, w.game.bets) + s.said)
  }

  /** The state right after the countdown's sleep: betting is closed and nothing else changed. */
  function CloseBetting(w: World): (r: World)
    ensures !r.game.bettingOpen
    ensures r.game.bets == w.game.bets && r.game.highestBetUserId == w.game.highestBetUserId
    ensures r.game.running == w.game.running && r.game.highestBetUser == w.game.highestBetUser
    ensures r.game.countdownTask == w.game.countdownTask
    ensures r.bot == w.bot && r.db == w.db && r.armed == w.armed
  {
    w.(game := w.game.(bettingOpen := false))
  }

  /**
   * `countdown` as written: one armed countdown finishes sleeping and closes
   * betting. The debug print of `update.message.dice.value` then raises, because
   * the task holds the `/start_game` update, whose message carries no dice; so
   * nothing is announced and no roll follows. With no armed countdown the event
   * cannot happen and the world is unchanged.
   */
  function Countdown(w: World): (r: Step)
    ensures r.said == []
    ensures w.armed == 0 ==> r.world == w
    ensures w.armed > 0 ==> r.world.armed == w.armed - 1 && !r.world.game.bettingOpen
    ensures r.world.db == w.db && r.world.bot == w.bot
    ensures r.world.game.bets == w.game.bets && r.world.game.highestBetUserId == w.game.highestBetUserId
  {
    if w.armed == 0 then Step(w, [])
    else Step(CloseBetting(w.(armed := w.armed - 1)), [])
  }

  /**
   * The countdown as it would run without the debug prints: it closes betting,
   * announces it, and hands over to the roll path.
   */
  function CountdownExpired(w: World, d: Roll): (r: Step)
    ensures w.armed == 0 ==> r == Step(w, [])
    ensures w.armed > 0 ==> |r.said| >= 1 && r.said[0] == BettingClosed
    ensures w.armed > 0 ==> r.world.armed == w.armed
    ensures w.armed > 0 ==> r.world.db == w.db
  {
    if w.armed == 0 then Step(w, [])
    else
      var closed := Countdown(w).world;
      var s := HandleDiceRoll(closed, d);
      Step(s.world, [BettingClosed] + s.said)
  }

  /** The roll path never reads `betting_open`. */
  lemma RollIgnoresBettingOpen(w: World, d: Roll, b: bool)
    ensures HandleDiceRoll(w.(game := w.game.(bettingOpen := b)), d) == HandleDiceRoll(w, d)
  {
  }

  // ---------------------------------------------------------------------------
  // start_game and end_game (handlers_admin.py)
  // ---------------------------------------------------------------------------

  /**
   * `running` is written `False` just before it is tested, so the
   * "already running" reply is never sent and every call re-initialises
   * `bot_data`. The new round's countdown does not cancel an older one.
   */
  function StartGame(w: World, gameNum: int): (r: Step)
    ensures r.world.bot == BotData(true, Some(gameNum), [], map[], None)
    ensures AlreadyRunning !in r.said
    ensures r.said == [GameStarted(gameNum), RoundOpened]
    ensures r.world.game.bettingOpen && r.world.game.bets == []
    ensures r.world.armed == w.armed + 1 && r.world.db == w.db
  {
    var bot := BotData(false, Some(gameNum), [], map[], None);
    if bot.running then Step(w.(bot := bot), [AlreadyRunning])
    else
      var s := StartRound(w.(bot := bot.(running := true)));
      Step(s.world, [GameStarted(gameNum)] + s.said)
  }

  /** A second `start_game` resets `bot_data` the same way and arms one more countdown. */
  lemma StartGameTwice(w: World, n: int, n2: int)
    ensures var w1 := StartGame(w, n).world;
      var w2 := StartGame(w1, n2).world;
      w2.bot == BotData(true, Some(n2), [], map[], None) && w2.armed == w.armed + 2
  {
  }

  /**
   * `end_game` only replies. Concatenating a missing last name raises before
   * anything else runs.
   */
  function EndGame(w: World, firstName: string, lastName: Option<string>, connected: bool): (r: Step)
    ensures r.world == w
    ensures lastName.None? ==> r.said == []
    ensures lastName.Some? && !connected ==> r.said == [AdminDbUnavailable]
    ensures lastName.Some? && connected ==> r.said == [EndNotice(firstName + lastName.value)]
  {
    if lastName.None? then Step(w, [])
    else if !connected then Step(w, [AdminDbUnavailable])
    else Step(w, [EndNotice(firstName + lastName.value)])
  }

  // ---------------------------------------------------------------------------
  // The whole system
  // ---------------------------------------------------------------------------

  datatype Event =
    | AdminStartsGame
    | AdminEndsGame(firstName: string, lastName: Option<string>, connected: bool)
    | CountdownEnds
    | Message(sender: Sender, text: Option<string>)

  datatype Config = Config(gameNum: int, defMoney: int)

  /** A chat message is handled against the store under `bot_data["running"]`. */
  function Next(cfg: Config, w: World, e: Event): (r: Step)
    ensures e.Message? ==> r.world.bot == w.bot && r.world.game == w.game && r.world.armed == w.armed
  {
    match e
    case AdminStartsGame => StartGame(w, cfg.gameNum)
    case AdminEndsGame(first, last, connected) => EndGame(w, first, last, connected)
    case CountdownEnds => Countdown(w)
    case Message(s, text) =>
      var o := HandleMessage(w.db, w.bot.running, s, text, cfg.defMoney);
      Step(w.(db := o.db), seq(|o.replies|, i requires 0 <= i < |o.replies| => Said(o.replies[i])))
  }

  const InitialWorld := World(InitialBot, InitialGame, 0, map[])

  function Run(cfg: Config, w: World, events: seq<Event>): World
    decreases |events|
  {
    if |events| == 0 then w else Run(cfg, Next(cfg, w, events[0]).world, events[1..])
  }

  /** Nothing ever adds to `highest_bet_userid` or to the round's `bets`. */
  predicate NoRoundBets(w: World) {
    w.game.highestBetUserId == [] && w.game.bets == []
  }

  lemma NextKeepsNoRoundBets(cfg: Config, w: World, e: Event)
    requires NoRoundBets(w)
    ensures NoRoundBets(Next(cfg, w, e).world)
  {
  }

  lemma {:induction false} RunKeepsNoRoundBets(cfg: Config, w: World, events: seq<Event>)
    requires NoRoundBets(w)
    ensures NoRoundBets(Run(cfg, w, events))
    decreases |events|
  {
    if |events| > 0 {
      NextKeepsNoRoundBets(cfg, w, events[0]);
      RunKeepsNoRoundBets(cfg, Next(cfg, w, events[0]).world, events[1..]);
    }
  }

  /**
   * Even past the debug prints, a countdown in any reachable world would end
   * with "no bettors": nothing ever fills `highest_bet_userid`, so no dice are rolled.
   */
  lemma CountdownNeverRolls(cfg: Config, events: seq<Event>, d: Roll)
    ensures var w := Run(cfg, InitialWorld, events);
      w.armed > 0 ==> CountdownExpired(w, d).said == [BettingClosed, NoBettors, RoundOpened]
  {
    RunKeepsNoRoundBets(cfg, InitialWorld, events);
  }

  /**
   * `betting_open` is written by `start_round` and `countdown` but read by no
   * handler: flipping it changes neither what any event says nor the store,
   * `bot_data` or the armed countdowns it leaves, and bets are taken whenever
   * `bot_data` says running.
   */
  lemma BettingOpenIsNeverRead(cfg: Config, w: World, e: Event, b: bool)
    ensures var r1 := Next(cfg, w, e);
      var r2 := Next(cfg, w.(game := w.game.(bettingOpen := b)), e);
      r1.said == r2.said && r1.world.db == r2.world.db && r1.world.bot == r2.world.bot
      && r1.world.armed == r2.world.armed
  {
  }
}
