/**
 * The user-facing handlers: `handle_message` (normalise, try every rule, admit
 * the bet), `start` (registration) and `cancel_bet` (refund and clear).
 *
 * Replies are returned as values instead of being sent; a handler that raises is
 * reported as `Crashed` together with the store as it was when it raised.
 */
module Handlers {
  import opened Wrappers
  import opened Text
  import opened Bets
  import opened Store
  import opened Acceptance

  /** The Telegram sender: `last_name` may be absent. */
  datatype Sender = Sender(id: UserId, firstName: string, lastName: Option<string>)

  datatype Reply =
    | Insufficient                              // ❌余额不足！
    | BetPlaced(message: string)                // "{message} 下注成功！"
    | DbUnavailable                             // ❌ 数据库连接失败…
    | AlreadyRegistered(name: string)           // "❌ {username}: 您已经不是新用户！…"
    | Welcome(name: string, money: int)         // the welcome photo's caption
    | Refunded(id: UserId, amount: int)         // "✅ {user_id}:你已成功取消押注，押金{bet_money}…"
    | NothingToCancel(id: UserId)               // "❌ {user_id}:你还没有押注！"

  /** How a handler ended: ran to its end, left through `return`, or raised. */
  datatype Status = Completed | Returned | Crashed

  datatype Outcome = Outcome(db: Db, replies: seq<Reply>, status: Status)

  /** The name `handle_message` registers: `f"{first_name} {last_name or ''}".strip()`. */
  function FullName(s: Sender): string {
    MessageName(s.firstName, s.lastName.GetOr(""))
  }

  // ---------------------------------------------------------------------------
  // handle_message
  // ---------------------------------------------------------------------------

  /** The store after the sender's row has been created if it was missing. */
  function Registered(db: Db, s: Sender, defMoney: int): Db {
    AddUser(db, s.id, FullName(s), defMoney)
  }

  /**
   * One matching rule while the game runs: create the sender if unknown, compare
   * the stake with the balance, append the bet. 定位胆y compares an `int` with a
   * `str`, which raises before anything is appended.
   */
  function Admit(db: Db, s: Sender, c: Candidate, defMoney: int, message: string): (o: Outcome)
    ensures var db1 := Registered(db, s, defMoney);
      && o.db.Keys == db1.Keys
      && (forall k :: k in db1 && k != s.id ==> o.db[k] == db1[k])
      && o.db[s.id].money == db1[s.id].money
      && o.db[s.id].name == db1[s.id].name
    ensures o.status == Crashed <==> c.TextStake?
    ensures c.TextStake? ==> o.db == Registered(db, s, defMoney) && o.replies == []
    ensures c.Stake? ==> var db1 := Registered(db, s, defMoney);
      if db1[s.id].money < c.bet.money then
        o.status == Returned && o.replies == [Insufficient] && o.db == db1
      else
        o.status == Completed && o.replies == [BetPlaced(message)]
        && BetList(o.db[s.id]) == BetList(db1[s.id]) + [c.bet]
  {
    var db1 := Registered(db, s, defMoney);
    match c
    case TextStake(_, _) => Outcome(db1, [], Crashed)
    case Stake(b) =>
      if db1[s.id].money < b.money then Outcome(db1, [Insufficient], Returned)
      else
        var placed := PlaceBet(db1, s.id, b);
        Outcome(placed.value, [BetPlaced(message)], Completed)
  }

  /**
   * The `for` loop over the rules: there is no `break`, so every rule is tried;
   * an admission that returns or raises ends the handler.
   */
  function Loop(db: Db, running: bool, s: Sender, m: string, defMoney: int,
                rules: seq<Rule>, replies: seq<Reply>): Outcome
    decreases |rules|
  {
    if |rules| == 0 then Outcome(db, replies, Completed)
    else match MatchRule(rules[0], m)
      case None => Loop(db, running, s, m, defMoney, rules[1..], replies)
      case Some(c) =>
        if !running then Loop(db, running, s, m, defMoney, rules[1..], replies)
        else
          var o := Admit(db, s, c, defMoney, m);
          if o.status == Completed then Loop(o.db, running, s, m, defMoney, rules[1..], replies + o.replies)
          else Outcome(o.db, replies + o.replies, o.status)
  }

  /** A `None` text is ignored; otherwise the text is normalised and every rule tried. */
  function HandleMessage(db: Db, running: bool, s: Sender, text: Option<string>, defMoney: int): (o: Outcome)
    ensures text.None? ==> o == Outcome(db, [], Completed)
  {
    match text
    case None => Outcome(db, [], Completed)
    case Some(t) => Loop(db, running, s, Normalize(t), defMoney, Rules, [])
  }

  // ---------------------------------------------------------------------------
  // The loop is a parser followed by one admission
  // ---------------------------------------------------------------------------

  /** The candidate of the first rule in `rules` that matches `m`. */
  function ParseIn(rules: seq<Rule>, m: string): (r: Option<Candidate>)
    ensures r.Some? <==> exists i :: 0 <= i < |rules| && MatchRule(rules[i], m).Some?
    ensures r.Some? ==> exists i :: 0 <= i < |rules| && MatchRule(rules[i], m) == r
    decreases |rules|
  {
    if |rules| == 0 then None
    else if MatchRule(rules[0], m).Some? then MatchRule(rules[0], m)
    else
      var r := ParseIn(rules[1..], m);
      ParseInShift(rules, m, r);
      r
  }

  /** The rules after a non-matching first rule match exactly where `rules` does. */
  lemma ParseInShift(rules: seq<Rule>, m: string, r: Option<Candidate>)
    requires |rules| > 0 && MatchRule(rules[0], m).None?
    requires r.Some? <==> exists i :: 0 <= i < |rules[1..]| && MatchRule(rules[1..][i], m).Some?
    requires r.Some? ==> exists i :: 0 <= i < |rules[1..]| && MatchRule(rules[1..][i], m) == r
    ensures r.Some? <==> exists i :: 0 <= i < |rules| && MatchRule(rules[i], m).Some?
    ensures r.Some? ==> exists i :: 0 <= i < |rules| && MatchRule(rules[i], m) == r
  {
    if r.Some? {
      var i :| 0 <= i < |rules[1..]| && MatchRule(rules[1..][i], m) == r;
      assert rules[1..][i] == rules[i + 1];
    }
    if exists i :: 0 <= i < |rules| && MatchRule(rules[i], m).Some? {
      var i :| 0 <= i < |rules| && MatchRule(rules[i], m).Some?;
      assert i > 0 && rules[1..][i - 1] == rules[i];
    }
  }

  /** A message read as a bet: the candidate of the one rule that matches it, if any. */
  function Parse(m: string): Option<Candidate> {
    ParseIn(Rules, m)
  }

  /** What a parsed message does: nothing unless the game runs and a rule matched. */
  function Apply(db: Db, running: bool, s: Sender, c: Option<Candidate>, defMoney: int, m: string): Outcome {
    if c.None? || !running then Outcome(db, [], Completed) else Admit(db, s, c.value, defMoney, m)
  }

  predicate PairwiseExclusive(rules: seq<Rule>, m: string) {
    forall i, j :: 0 <= i < j < |rules| ==> MatchRule(rules[i], m).None? || MatchRule(rules[j], m).None?
  }

  lemma {:induction false} LoopWithoutMatch(db: Db, running: bool, s: Sender, m: string, defMoney: int,
                                            rules: seq<Rule>, replies: seq<Reply>)
    requires forall i :: 0 <= i < |rules| ==> MatchRule(rules[i], m).None?
    ensures Loop(db, running, s, m, defMoney, rules, replies) == Outcome(db, replies, Completed)
    decreases |rules|
  {
    if |rules| > 0 {
      assert MatchRule(rules[0], m).None?;
      LoopWithoutMatch(db, running, s, m, defMoney, rules[1..], replies);
    }
  }

  /** When no two rules match together, the loop performs the first match's admission only. */
  lemma {:induction false} LoopIsApply(db: Db, running: bool, s: Sender, m: string, defMoney: int,
                                       rules: seq<Rule>, replies: seq<Reply>)
    requires PairwiseExclusive(rules, m)
    ensures var o := Apply(db, running, s, ParseIn(rules, m), defMoney, m);
      Loop(db, running, s, m, defMoney, rules, replies) == Outcome(o.db, replies + o.replies, o.status)
    decreases |rules|
  {
    if |rules| == 0 {
      assert replies + [] == replies;
    } else {
      assert PairwiseExclusive(rules[1..], m) by {
        forall i, j | 0 <= i < j < |rules| - 1
          ensures MatchRule(rules[1..][i], m).None? || MatchRule(rules[1..][j], m).None?
        {
          assert rules[1..][i] == rules[i + 1] && rules[1..][j] == rules[j + 1];
        }
      }
      if MatchRule(rules[0], m).None? {
        LoopIsApply(db, running, s, m, defMoney, rules[1..], replies);
      } else if !running {
        LoopIsApply(db, running, s, m, defMoney, rules[1..], replies);
      } else {
        var o := Admit(db, s, MatchRule(rules[0], m).value, defMoney, m);
        if o.status == Completed {
          forall i | 0 <= i < |rules[1..]| ensures MatchRule(rules[1..][i], m).None? {
            assert rules[1..][i] == rules[i + 1];
          }
          LoopWithoutMatch(o.db, running, s, m, defMoney, rules[1..], replies + o.replies);
        }
      }
    }
  }

  /** Position of each rule in `Rules`. */
  function Rank(r: Rule): nat {
    match r
    case SizeRule => 0
    case SizeParityRule => 1
    case SumRule => 2
    case PairRule => 3
    case ExactPairRule => 4
    case StraightRule => 5
    case TripleRule => 6
    case ExactTripleRule => 7
    case PositionRule => 8
    case PositionYRule => 9
  }

  lemma RankIndexesRules(rule: Rule)
    ensures Rank(rule) < |Rules| && Rules[Rank(rule)] == rule
  {
  }

  lemma RulesAreDistinct()
    ensures forall i, j :: 0 <= i < j < |Rules| ==> Rules[i] != Rules[j]
  {
    assert forall i :: 0 <= i < |Rules| ==> Rank(Rules[i]) == i;
  }

  lemma RulesExclusive(m: string)
    ensures PairwiseExclusive(Rules, m)
  {
    RulesAreDistinct();
    forall i, j | 0 <= i < j < |Rules|
      ensures MatchRule(Rules[i], m).None? || MatchRule(Rules[j], m).None?
    {
      RulesDisjoint(Rules[i], Rules[j], m);
    }
  }

  /**
   * Although the loop never breaks, a message does at most one thing: exactly
   * what its parse says, and nothing when no rule matches or the game is not running.
   */
  lemma HandleMessageIsParseThenAdmit(db: Db, running: bool, s: Sender, t: string, defMoney: int)
    ensures var m := Normalize(t);
      HandleMessage(db, running, s, Some(t), defMoney) == Apply(db, running, s, Parse(m), defMoney, m)
  {
    var m := Normalize(t);
    RulesExclusive(m);
    LoopIsApply(db, running, s, m, defMoney, Rules, []);
  }

  /** No match, or the game not running: the store is left exactly as it was. */
  lemma IgnoredMessageKeepsStore(db: Db, running: bool, s: Sender, t: string, defMoney: int)
    requires Parse(Normalize(t)).None? || !running
    ensures HandleMessage(db, running, s, Some(t), defMoney) == Outcome(db, [], Completed)
  {
    HandleMessageIsParseThenAdmit(db, running, s, t, defMoney);
  }

  /**
   * One admission at most: no row other than the sender's is added or changed,
   * and the sender's row changes only by one appended bet.
   */
  ghost predicate AtMostOneBet(db: Db, s: Sender, defMoney: int, o: Outcome) {
    var db1 := Registered(db, s, defMoney);
    && o.db.Keys <= db.Keys + {s.id}
    && (forall k :: k in db && k != s.id ==> k in o.db && o.db[k] == db[k])
    && (s.id in o.db ==> o.db[s.id].money == db1[s.id].money)
    && (s.id in o.db ==>
          (BetList(o.db[s.id]) == BetList(db1[s.id])
           || exists b :: BetList(o.db[s.id]) == BetList(db1[s.id]) + [b]))
  }

  lemma ApplyAppendsAtMostOne(db: Db, running: bool, s: Sender, c: Option<Candidate>, defMoney: int, m: string)
    ensures AtMostOneBet(db, s, defMoney, Apply(db, running, s, c, defMoney, m))
  {
    var o := Apply(db, running, s, c, defMoney, m);
    if c.Some? && running && c.value.Stake? && o.status == Completed {
      assert BetList(o.db[s.id]) == BetList(Registered(db, s, defMoney)[s.id]) + [c.value.bet];
    }
  }

  /** Although every rule is tried, at most one bet is appended, to the sender only, and no balance changes. */
  lemma HandleMessageAppendsAtMostOne(db: Db, running: bool, s: Sender, t: string, defMoney: int)
    ensures AtMostOneBet(db, s, defMoney, HandleMessage(db, running, s, Some(t), defMoney))
  {
    HandleMessageIsParseThenAdmit(db, running, s, t, defMoney);
    var m := Normalize(t);
    ApplyAppendsAtMostOne(db, running, s, Parse(m), defMoney, m);
  }

  /** A stake equal to the balance, and a zero stake, are both admitted. */
  lemma AdmitBoundaries(db: Db, s: Sender, b: Bet, defMoney: int, message: string)
    requires b.money == Registered(db, s, defMoney)[s.id].money || b.money == 0
    requires Registered(db, s, defMoney)[s.id].money >= 0
    ensures Admit(db, s, Stake(b), defMoney, message).status == Completed
  {
  }

  /** An unknown sender is created with the configured amount even when the bet is rejected. */
  lemma UnknownSenderIsCreated(db: Db, s: Sender, c: Candidate, defMoney: int, message: string)
    requires s.id !in db
    ensures var o := Admit(db, s, c, defMoney, message);
      s.id in o.db && o.db[s.id].money == defMoney && o.db[s.id].name == FullName(s)
  {
  }

  lemma {:induction false} ParseInFindsTheMatch(rules: seq<Rule>, m: string, k: nat)
    requires PairwiseExclusive(rules, m) && k < |rules| && MatchRule(rules[k], m).Some?
    ensures ParseIn(rules, m) == MatchRule(rules[k], m)
    decreases |rules|
  {
    if k > 0 {
      assert MatchRule(rules[0], m).None?;
      assert PairwiseExclusive(rules[1..], m) by {
        forall i, j | 0 <= i < j < |rules| - 1
          ensures MatchRule(rules[1..][i], m).None? || MatchRule(rules[1..][j], m).None?
        {
          assert rules[1..][i] == rules[i + 1] && rules[1..][j] == rules[j + 1];
        }
      }
      assert rules[1..][k - 1] == rules[k];
      ParseInFindsTheMatch(rules[1..], m, k - 1);
    }
  }

  /** Whichever rule matches a message, the parse is that rule's candidate. */
  lemma ParseIsTheMatch(rule: Rule, m: string)
    requires MatchRule(rule, m).Some?
    ensures Parse(m) == MatchRule(rule, m)
  {
    RankIndexesRules(rule);
    RulesExclusive(m);
    ParseInFindsTheMatch(Rules, m, Rank(rule));
  }

  /**
   * While the game runs, a message that a rule matches with an affordable stake
   * is placed: the bet is appended to the sender's list and acknowledged.
   */
  lemma MatchedBetIsPlaced(db: Db, s: Sender, t: string, rule: Rule, b: Bet, defMoney: int)
    requires MatchRule(rule, Normalize(t)) == Some(Stake(b))
    requires Registered(db, s, defMoney)[s.id].money >= b.money
    ensures var o := HandleMessage(db, true, s, Some(t), defMoney);
      && o.status == Completed
      && o.replies == [BetPlaced(Normalize(t))]
      && s.id in o.db
      && BetList(o.db[s.id]) == BetList(Registered(db, s, defMoney)[s.id]) + [b]
  {
    var m := Normalize(t);
    ParseIsTheMatch(rule, m);
    HandleMessageIsParseThenAdmit(db, true, s, t, defMoney);
    StakeIsPlaced(db, s, b, defMoney, m);
  }

  /** An affordable stake in a running game is appended and confirmed with the message. */
  lemma StakeIsPlaced(db: Db, s: Sender, b: Bet, defMoney: int, m: string)
    requires Registered(db, s, defMoney)[s.id].money >= b.money
    ensures var o := Apply(db, true, s, Some(Stake(b)), defMoney, m);
      && o.status == Completed
      && o.replies == [BetPlaced(m)]
      && s.id in o.db
      && BetList(o.db[s.id]) == BetList(Registered(db, s, defMoney)[s.id]) + [b]
  {
  }

  /**
   * A 指定对子 bet typed with any whitespace runs between its fields is placed
   * while the game runs and the balance covers the stake: normalisation leaves
   * the single space that the pattern's `([1-6]) (\d+)` needs.
   */
  lemma SpacedExactPairIsPlaced(db: Db, s: Sender, w: string, sp1: string, f: char, sp2: string, d: string,
                                defMoney: int)
    requires w in PairWords && |sp1| > 0 && AllSpaces(sp1) && |sp2| > 0 && AllSpaces(sp2)
    requires '1' <= f <= '6' && |d| > 0 && AllDigits(d)
    requires Registered(db, s, defMoney)[s.id].money >= DigitsValue(d)
    ensures var o := HandleMessage(db, true, s, Some(w + sp1 + [f] + sp2 + d), defMoney);
      && o.status == Completed
      && o.replies == [BetPlaced(w + " " + [f] + " " + d)]
      && s.id in o.db
      && BetList(o.db[s.id]) == BetList(Registered(db, s, defMoney)[s.id]) + [ExactPair(DigitValue(f), DigitsValue(d))]
  {
    SpacedExactPairMatches(w, sp1, f, sp2, d);
    MatchedBetIsPlaced(db, s, w + sp1 + [f] + sp2 + d, ExactPairRule, ExactPair(DigitValue(f), DigitsValue(d)), defMoney);
  }

  lemma SpacedExactPairMatches(w: string, sp1: string, f: char, sp2: string, d: string)
    requires w in PairWords && |sp1| > 0 && AllSpaces(sp1) && |sp2| > 0 && AllSpaces(sp2)
    requires '1' <= f <= '6' && |d| > 0 && AllDigits(d)
    ensures var m := Normalize(w + sp1 + [f] + sp2 + d);
      m == w + " " + [f] + " " + d
      && MatchRule(ExactPairRule, m) == Some(Stake(ExactPair(DigitValue(f), DigitsValue(d))))
  {
    PairKeywords();
    FieldsNormalize(w, sp1, f, sp2, d);
    SingleSpacedExactPair(w, f, d);
  }

  lemma SingleSpacedExactPair(w: string, f: char, d: string)
    requires w in PairWords && '1' <= f <= '6' && |d| > 0 && AllDigits(d)
    ensures MatchRule(ExactPairRule, w + " " + [f] + " " + d) == Some(Stake(ExactPair(DigitValue(f), DigitsValue(d))))
  {
    OneSpace();
    ExactPairAccepted(w, " ", f, d);
    ExactPairRuleIs(w + " " + [f] + " " + d);
  }

  /** Whitespace runs between a keyword, a face and a stake become single spaces. */
  lemma FieldsNormalize(w: string, sp1: string, f: char, sp2: string, d: string)
    requires IsKeyword(w) && |sp1| > 0 && AllSpaces(sp1) && |sp2| > 0 && AllSpaces(sp2)
    requires IsDigit(f) && |d| > 0 && AllDigits(d)
    ensures Normalize(w + sp1 + [f] + sp2 + d) == w + " " + [f] + " " + d
  {
    NormalizeRun(w + sp1 + [f], sp2, d);
    NormalizeRun(w, sp1, [f]);
    NormalizeOfNormal(w);
    NormalizeOfNormal([f]);
    NormalizeOfNormal(d);
  }

  lemma ExactPairRuleIs(m: string)
    ensures MatchRule(ExactPairRule, m) == MatchExactPair(m)
  {
  }

  /** 定位胆y: the handler raises after creating the sender and before placing anything. */
  lemma PositionYCrashes(db: Db, running: bool, s: Sender, t: string, defMoney: int)
    requires running && MatchRule(PositionYRule, Normalize(t)).Some?
    ensures HandleMessage(db, running, s, Some(t), defMoney) == Outcome(Registered(db, s, defMoney), [], Crashed)
  {
    var m := Normalize(t);
    PositionYParsesAsText(m);
    HandleMessageIsParseThenAdmit(db, running, s, t, defMoney);
  }

  lemma PositionYParsesAsText(m: string)
    requires MatchRule(PositionYRule, m).Some?
    ensures Parse(m).Some? && Parse(m).value.TextStake?
  {
    ParseIsTheMatch(PositionYRule, m);
    PositionYRuleIs(m);
  }

  lemma PositionYRuleIs(m: string)
    ensures MatchRule(PositionYRule, m) == MatchPositionY(m)
  {
  }

  // ---------------------------------------------------------------------------
  // start
  // ---------------------------------------------------------------------------

  /** `" ".join(filter(None, [first_name, last_name]))`. */
  function UserName(s: Sender): string {
    StartName(s.firstName, s.lastName.GetOr(""))
  }

  /**
   * Registration. The "initialisation failed" reply needs the freshly inserted
   * row to be missing, which cannot happen in the store model.
   */
  function Start(db: Db, s: Sender, connected: bool, defMoney: int): (o: Outcome)
    ensures !connected ==> o == Outcome(db, [DbUnavailable], Returned)
    ensures connected && s.id in db ==> o == Outcome(db, [AlreadyRegistered(UserName(s))], Returned)
    ensures connected && s.id !in db ==> o.status == Completed && o.replies == [Welcome(UserName(s), defMoney)]
    ensures connected && s.id !in db ==> o.db.Keys == db.Keys + {s.id}
    ensures connected && s.id !in db ==> forall k :: k in db ==> o.db[k] == db[k]
    ensures connected && s.id !in db ==> o.db[s.id] == User(UserName(s), defMoney, None)
  {
    if !connected then Outcome(db, [DbUnavailable], Returned)
    else if s.id in db then Outcome(db, [AlreadyRegistered(UserName(s))], Returned)
    else
      var db1 := AddUser(db, s.id, UserName(s), defMoney);
      Outcome(db1, [Welcome(db1[s.id].name, db1[s.id].money)], Completed)
  }

  /** A second `/start` changes nothing. */
  lemma StartTwice(db: Db, s: Sender, defMoney: int)
    ensures var o := Start(db, s, true, defMoney);
      Start(o.db, s, true, defMoney).db == o.db
  {
  }

  // ---------------------------------------------------------------------------
  // cancel_bet
  // ---------------------------------------------------------------------------

  /** `sum(int(i['money']) for i in bet_list)`. */
  function Stakes(l: seq<Bet>): nat {
    if |l| == 0 then 0 else Stakes(l[..|l| - 1]) + l[|l| - 1].money
  }

  lemma {:induction false} StakesAppend(l: seq<Bet>, b: Bet)
    ensures Stakes(l + [b]) == Stakes(l) + b.money
  {
    assert (l + [b])[..|l|] == l;
  }

  /**
   * Refund the summed stakes and clear the list. Both updates run even when the sum
   * is zero; only the reply tells the two cases apart. A user with no row makes
   * the bet lookup raise.
   */
  function CancelBet(db: Db, id: UserId, connected: bool): (o: Outcome)
    ensures !connected ==> o == Outcome(db, [DbUnavailable], Returned)
    ensures connected ==> (o.status == Crashed <==> id !in db)
    ensures connected && id !in db ==> o.db == db && o.replies == []
    ensures connected && id in db ==> o.status == Completed && o.db.Keys == db.Keys
    ensures connected && id in db ==> forall k :: k in db && k != id ==> o.db[k] == db[k]
    ensures connected && id in db ==>
      o.db[id] == User(db[id].name, db[id].money + Stakes(BetList(db[id])), Some([]))
    ensures connected && id in db ==>
      (o.replies == [NothingToCancel(id)] <==> Stakes(BetList(db[id])) == 0)
    ensures connected && id in db && Stakes(BetList(db[id])) != 0 ==>
      o.replies == [Refunded(id, Stakes(BetList(db[id])))]
  {
    if !connected then Outcome(db, [DbUnavailable], Returned)
    else match UserBets(db, id)
      case Failure(_) => Outcome(db, [], Crashed)
      case Success(l) =>
        var total := Stakes(l);
        var db1 := UpdateBalance(db, [id], [total]);
        var db2 := DeleteBet(db1, [id]);
        assert Credit([id], [total], id) == total;
        assert forall k :: k != id ==> Credit([id], [total], k) == 0;
        Outcome(db2, if total != 0 then [Refunded(id, total)] else [NothingToCancel(id)], Completed)
  }

  /**
   * The stake is never taken from the balance when a bet is placed, yet cancelling
   * refunds it: placing and then cancelling a bet raises the balance by the stake.
   */
  lemma PlaceThenCancel(db: Db, s: Sender, b: Bet, defMoney: int, message: string)
    requires s.id in db && BetList(db[s.id]) == [] && db[s.id].money >= b.money
    ensures var o := Admit(db, s, Stake(b), defMoney, message);
      CancelBet(o.db, s.id, true).db[s.id].money == db[s.id].money + b.money
  {
    var o := Admit(db, s, Stake(b), defMoney, message);
    assert Registered(db, s, defMoney)[s.id] == db[s.id];
    assert BetList(o.db[s.id]) == [] + [b];
    StakesAppend([], b);
    var c := CancelBet(o.db, s.id, true);
    assert c.db[s.id].money == o.db[s.id].money + Stakes(BetList(o.db[s.id]));
  }
}
