/**
 * The ten bet-message patterns and the bet records they produce
 * (`BETTING_RULES` and the per-rule branches of `handle_message`).
 *
 * Every `\s*` in the patterns is followed by a non-whitespace token, so the only
 * way it can take part in a successful match is by consuming the whole whitespace
 * run: it is modelled as `TrimStart`. An alternation `(a|b|...)` is modelled as the
 * first alternative, in the pattern's order, after which the rest of the pattern
 * matches, which is the group a backtracking matcher reports.
 */
module Bets {
  import opened Wrappers
  import opened Text

  /** A bet as stored in the user's JSON list: the `type` tag is `TypeTag`. */
  datatype Bet =
    | Size(choice: string, money: nat)                        // 大小
    | SizeParity(choice: string, money: nat)                  // 大小单双
    | SumOfThree(choice: string, money: nat)                  // 和值; choice is the target's digits
    | Pair(money: nat)                                        // 对子
    | ExactPair(face: nat, money: nat)                        // 指定对子; choice is an int
    | Straight(money: nat)                                    // 顺子
    | Triple(money: nat)                                      // 豹子
    | ExactTriple(choice: string, money: nat)                 // 指定豹子, stored under the tag 豹子
    | Position(position: string, diceValue: string, money: nat) // 定位胆

  /** The `"type"` entry of the stored record. */
  function TypeTag(b: Bet): string {
    match b
    case Size(_, _) => "大小"
    case SizeParity(_, _) => "大小单双"
    case SumOfThree(_, _) => "和值"
    case Pair(_) => "对子"
    case ExactPair(_, _) => "指定对子"
    case Straight(_) => "顺子"
    case Triple(_) => "豹子"
    case ExactTriple(_, _) => "豹子"
    case Position(_, _, _) => "定位胆"
  }

  /** The keys of `BETTING_RULES`. */
  datatype Rule =
    | SizeRule | SizeParityRule | SumRule | PairRule | ExactPairRule
    | StraightRule | TripleRule | ExactTripleRule | PositionRule | PositionYRule

  /** The dict's iteration order, which is the order `handle_message` tries the rules in. */
  const Rules: seq<Rule> := [SizeRule, SizeParityRule, SumRule, PairRule, ExactPairRule,
                             StraightRule, TripleRule, ExactTripleRule, PositionRule, PositionYRule]

  /**
   * What a matching rule hands to the admission step: a bet whose stake was
   * converted with `int`, or (定位胆y) a stake left as text.
   */
  datatype Candidate = Stake(bet: Bet) | TextStake(position: string, money: string)

  // ---------------------------------------------------------------------------
  // Pattern pieces
  // ---------------------------------------------------------------------------

  /** A character that can end a keyword: whitespace or a digit. */
  predicate IsStop(c: char) {
    IsSpace(c) || IsDigit(c)
  }

  /** A keyword: non-empty, with no whitespace and no digit in it. */
  predicate IsKeyword(w: string) {
    |w| > 0 && forall i :: 0 <= i < |w| ==> !IsStop(w[i])
  }

  /** A piece of pattern that can only match text beginning with whitespace or a digit. */
  predicate StartsWithStop(s: string) {
    |s| > 0 && IsStop(s[0])
  }

  /** `\s*(\d+)$`: the stake's digits. */
  function StakeTail(s: string): (r: Option<string>)
    ensures r.Some? ==> |r.value| > 0 && AllDigits(r.value) && StartsWithStop(s)
    ensures r.Some? <==> |TrimStart(s)| > 0 && AllDigits(TrimStart(s))
    ensures r.Some? ==> r.value == TrimStart(s)
  {
    var t := TrimStart(s);
    if |t| > 0 && AllDigits(t) then Some(t) else None
  }

  /** `\s*([1-6]) (\d+)$` (also `\s*(1|2|3|4|5|6) (\d+)$`): the face and the stake's digits. */
  function FaceTail(s: string): (r: Option<(string, string)>)
    ensures r.Some? ==> |r.value.1| > 0 && AllDigits(r.value.1) && StartsWithStop(s)
    ensures r.Some? ==> |r.value.0| == 1 && '1' <= r.value.0[0] <= '6'
    ensures r.Some? ==> TrimStart(s) == r.value.0 + " " + r.value.1
  {
    var t := TrimStart(s);
    if |t| >= 3 && '1' <= t[0] <= '6' && t[1] == ' ' && AllDigits(t[2..]) then
      assert t == t[..1] + " " + t[2..];
      Some((t[..1], t[2..]))
    else None
  }

  /** Alternative `w` begins `s` and the rest of the pattern matches what follows it. */
  predicate Fits<T>(w: string, s: string, tail: string -> Option<T>) {
    w <= s && tail(s[|w|..]).Some?
  }

  /** The index of the first alternative that fits, or `|alts|` when none does. */
  function FirstFit<T>(alts: seq<string>, s: string, tail: string -> Option<T>): (k: nat)
    ensures k <= |alts|
    ensures forall i :: 0 <= i < k ==> !Fits(alts[i], s, tail)
    ensures k < |alts| ==> Fits(alts[k], s, tail)
  {
    if |alts| == 0 || Fits(alts[0], s, tail) then 0 else 1 + FirstFit(alts[1..], s, tail)
  }

  /**
   * The alternative a backtracking matcher picks for `(a0|a1|...)` followed by the
   * rest of the pattern `tail`, together with what `tail` matched: the first
   * alternative that fits, and no match exactly when none fits.
   */
  function FirstAlt<T>(alts: seq<string>, s: string, tail: string -> Option<T>): (r: Option<(string, T)>)
    ensures r.Some? ==> r.value.0 in alts && r.value.0 <= s && tail(s[|r.value.0|..]) == Some(r.value.1)
    ensures r.Some? <==> FirstFit(alts, s, tail) < |alts|
    ensures r.Some? ==> r.value.0 == alts[FirstFit(alts, s, tail)]
  {
    if |alts| == 0 then None
    else if Fits(alts[0], s, tail) then Some((alts[0], tail(s[|alts[0]|..]).value))
    else FirstAlt(alts[1..], s, tail)
  }

  /**
   * The target alternation `(4|5|6|7|8|9|10|11|12|13|14|15|16|17)`. No alternative
   * is a prefix of another, so at most one of them begins the text, and that one is
   * the alternative the matcher commits to; when the rest of the pattern then fails
   * there is no other alternative to fall back on.
   */
  function SumTarget(t: string): (r: Option<string>)
    ensures r.Some? ==> r.value <= t && |r.value| > 0 && AllDigits(r.value)
    ensures r.Some? ==> 4 <= DigitsValue(r.value) <= 17 && r.value == Decimal(DigitsValue(r.value))
  {
    if |t| > 0 && '4' <= t[0] <= '9' then
      assert t[..1][..0] == [];
      Some(t[..1])
    else if |t| > 1 && t[0] == '1' && '0' <= t[1] <= '7' then
      assert DigitsValue(t[..2]) == 10 + DigitValue(t[1]) by {
        assert t[..2][..1] == t[..1];
        assert t[..1][..0] == [];
        assert DigitsValue(t[..1]) == 1;
      }
      assert Decimal(10 + DigitValue(t[1])) == Decimal(1) + [t[1]];
      Some(t[..2])
    else None
  }

  /** `\s*(4|5|...|17)\s*(\d+)$`: the target's digits and the stake's digits. */
  function SumTail(s: string): (r: Option<(string, string)>)
    ensures r.Some? ==> |r.value.1| > 0 && AllDigits(r.value.1) && StartsWithStop(s)
    ensures r.Some? ==> |r.value.0| > 0 && AllDigits(r.value.0) && 4 <= DigitsValue(r.value.0) <= 17
    ensures r.Some? ==> r.value.0 <= TrimStart(s) && TrimStart(TrimStart(s)[|r.value.0|..]) == r.value.1
  {
    var t := TrimStart(s);
    match SumTarget(t)
    case None => None
    case Some(target) =>
      match StakeTail(t[|target|..])
      case None => None
      case Some(d) => Some((target, d))
  }

  /** `\s*([1-3])\s*([1-6])\s*(\d+)$`: position, face and the stake's digits. */
  function PositionTail(s: string): (r: Option<(string, string, string)>)
    ensures r.Some? ==> |r.value.2| > 0 && AllDigits(r.value.2) && StartsWithStop(s)
    ensures r.Some? ==> |r.value.0| == 1 && '1' <= r.value.0[0] <= '3'
    ensures r.Some? ==> |r.value.1| == 1 && '1' <= r.value.1[0] <= '6'
    ensures r.Some? ==> var t := TrimStart(s);
      && |t| > 0 && t[..1] == r.value.0
      && var u := TrimStart(t[1..]);
      && |u| > 0 && u[..1] == r.value.1 && TrimStart(u[1..]) == r.value.2
  {
    var t := TrimStart(s);
    if |t| > 0 && '1' <= t[0] <= '3' then
      var u := TrimStart(t[1..]);
      if |u| > 0 && '1' <= u[0] <= '6' then
        match StakeTail(u[1..])
        case None => None
        case Some(d) => Some((t[..1], u[..1], d))
      else None
    else None
  }

  /** The whole of `^([1-3])\s*y\s*(\d+)$`: position and the stake's digits. */
  function PositionY(s: string): (r: Option<(string, string)>)
    ensures r.Some? ==> |s| > 0 && IsDigit(s[0]) && r.value.0 == s[..1] && '1' <= s[0] <= '3'
    ensures r.Some? ==> |r.value.1| > 0 && AllDigits(r.value.1)
    ensures r.Some? ==> var t := TrimStart(s[1..]); |t| > 0 && t[0] == 'y' && TrimStart(t[1..]) == r.value.1
  {
    if |s| > 0 && '1' <= s[0] <= '3' then
      var t := TrimStart(s[1..]);
      if |t| > 0 && t[0] == 'y' then
        match StakeTail(t[1..])
        case None => None
        case Some(d) => Some((s[..1], d))
      else None
    else None
  }

  // ---------------------------------------------------------------------------
  // Keywords
  // ---------------------------------------------------------------------------

  const SizeWords: seq<string> := ["大", "小", "d", "x", "da", "xiao"]
  const SizeParityWords: seq<string> := ["dd", "ds", "xs", "xd", "xiaodan", "dadan", "大单", "大双", "小单", "小双"]
  const SumWords: seq<string> := ["和值", "hz"]
  const PairWords: seq<string> := ["对子", "dz"]
  const StraightWords: seq<string> := ["顺子", "sz"]
  const TripleWords: seq<string> := ["豹子", "bz"]
  const PositionWords: seq<string> := ["dwd", "定位胆"]

  /**
   * `''.join(lazy_pinyin(w, style=Style.FIRST_LETTER))` on a keyword: the first
   * letter of each Chinese syllable, and ASCII keywords unchanged.
   */
  function Initials(w: string): string {
    if w == "大" then "d"
    else if w == "小" then "x"
    else if w == "大单" then "dd"
    else if w == "大双" then "ds"
    else if w == "小单" then "xd"
    else if w == "小双" then "xs"
    else w
  }

  // ---------------------------------------------------------------------------
  // The rules
  // ---------------------------------------------------------------------------

  /** `re.match(BETTING_RULES[rule], m)` followed by the rule's branch building `bet_data`. */
  function MatchRule(rule: Rule, m: string): Option<Candidate> {
    match rule
    case SizeRule => MatchSize(m)
    case SizeParityRule => MatchSizeParity(m)
    case SumRule => MatchSum(m)
    case PairRule => MatchPair(m)
    case ExactPairRule => MatchExactPair(m)
    case StraightRule => MatchStraight(m)
    case TripleRule => MatchTriple(m)
    case ExactTripleRule => MatchExactTriple(m)
    case PositionRule => MatchPosition(m)
    case PositionYRule => MatchPositionY(m)
  }

  // One function per rule: the rule's pattern and the branch of `handle_message`
  // that builds its record.

  function MatchSize(m: string): Option<Candidate> {
    match FirstAlt(SizeWords, m, StakeTail)
    case None => None
    case Some((w, d)) => Some(Stake(Size(Initials(w), DigitsValue(d))))
  }

  function MatchSizeParity(m: string): Option<Candidate> {
    match FirstAlt(SizeParityWords, m, StakeTail)
    case None => None
    case Some((w, d)) => Some(Stake(SizeParity(Initials(w), DigitsValue(d))))
  }

  function MatchSum(m: string): Option<Candidate> {
    match FirstAlt(SumWords, m, SumTail)
    case None => None
    case Some((_, g)) => Some(Stake(SumOfThree(g.0, DigitsValue(g.1))))
  }

  function MatchPair(m: string): Option<Candidate> {
    match FirstAlt(PairWords, m, StakeTail)
    case None => None
    case Some((_, d)) => Some(Stake(Pair(DigitsValue(d))))
  }

  function MatchExactPair(m: string): Option<Candidate> {
    match FirstAlt(PairWords, m, FaceTail)
    case None => None
    case Some((_, g)) => Some(Stake(ExactPair(DigitsValue(g.0), DigitsValue(g.1))))
  }

  function MatchStraight(m: string): Option<Candidate> {
    match FirstAlt(StraightWords, m, StakeTail)
    case None => None
    case Some((_, d)) => Some(Stake(Straight(DigitsValue(d))))
  }

  function MatchTriple(m: string): Option<Candidate> {
    match FirstAlt(TripleWords, m, StakeTail)
    case None => None
    case Some((_, d)) => Some(Stake(Triple(DigitsValue(d))))
  }

  function MatchExactTriple(m: string): Option<Candidate> {
    match FirstAlt(TripleWords, m, FaceTail)
    case None => None
    case Some((_, g)) => Some(Stake(ExactTriple(g.0, DigitsValue(g.1))))
  }

  function MatchPosition(m: string): Option<Candidate> {
    match FirstAlt(PositionWords, m, PositionTail)
    case None => None
    case Some((_, g)) => Some(Stake(Position(g.0, g.1, DigitsValue(g.2))))
  }

  function MatchPositionY(m: string): Option<Candidate> {
    match PositionY(m)
    case None => None
    case Some((p, d)) => Some(TextStake(p, d))
  }

  // ---------------------------------------------------------------------------
  // At most one rule matches any message
  // ---------------------------------------------------------------------------

  /** Length of the longest prefix of `s` holding neither whitespace nor a digit. */
  function HeadLen(s: string): (n: nat)
    ensures n <= |s|
    ensures forall i :: 0 <= i < n ==> !IsStop(s[i])
  {
    if |s| > 0 && !IsStop(s[0]) then 1 + HeadLen(s[1..]) else 0
  }

  /** A keyword followed by whitespace or a digit is exactly the head of the text. */
  lemma {:induction false} KeywordIsHead(w: string, s: string)
    requires forall i :: 0 <= i < |w| ==> !IsStop(w[i])
    requires w <= s && StartsWithStop(s[|w|..])
    ensures HeadLen(s) == |w|
    decreases |w|
  {
    if |w| == 0 {
      assert s[0] == s[|w|..][0];
    } else {
      assert w[1..] <= s[1..];
      assert s[1..][|w[1..]|..] == s[|w|..];
      KeywordIsHead(w[1..], s[1..]);
    }
  }

  /** Whatever alternative `FirstAlt` picks among keywords is the head of the text. */
  lemma AltIsHead<T>(alts: seq<string>, s: string, tail: string -> Option<T>)
    requires forall w :: w in alts ==> IsKeyword(w)
    requires forall x :: tail(x).Some? ==> StartsWithStop(x)
    requires FirstAlt(alts, s, tail).Some?
    ensures HeadLen(s) == |FirstAlt(alts, s, tail).value.0| > 0
    ensures s[..HeadLen(s)] == FirstAlt(alts, s, tail).value.0
  {
    var w := FirstAlt(alts, s, tail).value.0;
    KeywordIsHead(w, s);
  }

  /** The keyword alternatives of each rule (定位胆y has none: it starts with a digit). */
  function Keywords(rule: Rule): seq<string> {
    match rule
    case SizeRule => SizeWords
    case SizeParityRule => SizeParityWords
    case SumRule => SumWords
    case PairRule => PairWords
    case ExactPairRule => PairWords
    case StraightRule => StraightWords
    case TripleRule => TripleWords
    case ExactTripleRule => TripleWords
    case PositionRule => PositionWords
    case PositionYRule => []
  }

  /** Rules sharing a keyword list belong to one family. */
  function Family(rule: Rule): nat {
    match rule
    case SizeRule => 0
    case SizeParityRule => 1
    case SumRule => 2
    case PairRule => 3
    case ExactPairRule => 3
    case StraightRule => 4
    case TripleRule => 5
    case ExactTripleRule => 5
    case PositionRule => 6
    case PositionYRule => 7
  }

  /** The family a keyword belongs to. */
  function KeywordFamily(w: string): nat {
    if w in SizeWords then 0
    else if w in SizeParityWords then 1
    else if w in SumWords then 2
    else if w in PairWords then 3
    else if w in StraightWords then 4
    else if w in TripleWords then 5
    else if w in PositionWords then 6
    else 7
  }

  /** Every alternative is keyword-shaped, and no keyword is shared between families. */
  lemma SizeKeywords()
    ensures forall w :: w in SizeWords ==> IsKeyword(w) && KeywordFamily(w) == 0
  {
  }

  lemma SizeParityKeywords()
    ensures forall w :: w in SizeParityWords ==> IsKeyword(w) && KeywordFamily(w) == 1
  {
  }

  lemma SumKeywords()
    ensures forall w :: w in SumWords ==> IsKeyword(w) && KeywordFamily(w) == 2
  {
  }

  lemma PairKeywords()
    ensures forall w :: w in PairWords ==> IsKeyword(w) && KeywordFamily(w) == 3
  {
  }

  lemma StraightKeywords()
    ensures forall w :: w in StraightWords ==> IsKeyword(w) && KeywordFamily(w) == 4
  {
  }

  lemma TripleKeywords()
    ensures forall w :: w in TripleWords ==> IsKeyword(w) && KeywordFamily(w) == 5
  {
  }

  lemma PositionKeywords()
    ensures forall w :: w in PositionWords ==> IsKeyword(w) && KeywordFamily(w) == 6
  {
  }

  lemma KeywordsOfRule(rule: Rule)
    ensures forall w :: w in Keywords(rule) ==> IsKeyword(w) && KeywordFamily(w) == Family(rule)
  {
    match rule
    case SizeRule => SizeKeywords();
    case SizeParityRule => SizeParityKeywords();
    case SumRule => SumKeywords();
    case PairRule => PairKeywords();
    case ExactPairRule => PairKeywords();
    case StraightRule => StraightKeywords();
    case TripleRule => TripleKeywords();
    case ExactTripleRule => TripleKeywords();
    case PositionRule => PositionKeywords();
    case PositionYRule =>
  }

  /** A matching rule other than 定位胆y matched one of its keywords, as the text's head. */
  lemma MatchedHead(rule: Rule, m: string)
    requires MatchRule(rule, m).Some?
    ensures rule != PositionYRule ==> HeadLen(m) > 0 && m[..HeadLen(m)] in Keywords(rule)
    ensures rule == PositionYRule ==> HeadLen(m) == 0
  {
    KeywordsOfRule(rule);
    match rule
    case SizeRule => AltIsHead(SizeWords, m, StakeTail);
    case SizeParityRule => AltIsHead(SizeParityWords, m, StakeTail);
    case SumRule => AltIsHead(SumWords, m, SumTail);
    case PairRule => AltIsHead(PairWords, m, StakeTail);
    case ExactPairRule => AltIsHead(PairWords, m, FaceTail);
    case StraightRule => AltIsHead(StraightWords, m, StakeTail);
    case TripleRule => AltIsHead(TripleWords, m, StakeTail);
    case ExactTripleRule => AltIsHead(TripleWords, m, FaceTail);
    case PositionRule => AltIsHead(PositionWords, m, PositionTail);
    case PositionYRule =>
  }

  /** After the same keyword, `\s*(\d+)$` and `\s*([1-6]) (\d+)$` never both match. */
  lemma StakeAndFaceDisjoint(alts: seq<string>, m: string)
    requires forall w :: w in alts ==> IsKeyword(w)
    ensures !(FirstAlt(alts, m, StakeTail).Some? && FirstAlt(alts, m, FaceTail).Some?)
  {
    if FirstAlt(alts, m, StakeTail).Some? && FirstAlt(alts, m, FaceTail).Some? {
      AltIsHead(alts, m, StakeTail);
      AltIsHead(alts, m, FaceTail);
    }
  }

  /** The model's ten matchers are pairwise disjoint, on every text (normalised or not). */
  lemma RulesDisjoint(r1: Rule, r2: Rule, m: string)
    requires r1 != r2
    ensures !(MatchRule(r1, m).Some? && MatchRule(r2, m).Some?)
  {
    if MatchRule(r1, m).Some? && MatchRule(r2, m).Some? {
      MatchedHead(r1, m);
      MatchedHead(r2, m);
      KeywordsOfRule(r1);
      KeywordsOfRule(r2);
      if Family(r1) == Family(r2) {
        if Family(r1) == 3 {
          StakeAndFaceDisjoint(PairWords, m);
        } else {
          StakeAndFaceDisjoint(TripleWords, m);
        }
      }
    }
  }

  // ---------------------------------------------------------------------------
  // What particular rules produce
  // ---------------------------------------------------------------------------

  /** Skipping alternatives that are not a prefix of the text. */
  lemma FirstAltSkips<T>(alts: seq<string>, s: string, tail: string -> Option<T>, k: nat)
    requires k <= |alts|
    requires forall j :: 0 <= j < k ==> !(alts[j] <= s)
    ensures FirstAlt(alts, s, tail) == FirstAlt(alts[k..], s, tail)
  {
    if k > 0 {
      assert alts[1..][k - 1..] == alts[k..];
      FirstAltSkips(alts[1..], s, tail, k - 1);
    }
  }

  lemma TrimOneSpace(s: string)
    requires |s| > 0 && !IsSpace(s[0])
    ensures TrimStart([' '] + s) == s
  {
    assert LeadingSpaces([' '] + s) == 1 + LeadingSpaces(s);
  }

  /** A digit string is a stake tail on its own. */
  lemma DigitsAreStake(d: string)
    requires |d| > 0 && AllDigits(d)
    ensures StakeTail(d) == Some(d)
  {
    assert LeadingSpaces(d) == 0;
  }

  /** A single alternative matches exactly when it begins the text and its tail matches. */
  lemma FirstAltSingle<T>(w: string, m: string, tail: string -> Option<T>, g: T)
    requires w <= m && tail(m[|w|..]) == Some(g)
    ensures FirstAlt([w], m, tail) == Some((w, g))
  {
  }

  /** Text that does not begin with 和值 is matched against "hz" alone. */
  lemma SumWordsAfterChinese<T>(m: string, tail: string -> Option<T>)
    requires !(SumWords[0] <= m)
    ensures FirstAlt(SumWords, m, tail) == FirstAlt(["hz"], m, tail)
  {
    FirstAltSkips(SumWords, m, tail, 1);
    assert SumWords[1..] == ["hz"];
  }

  lemma HzIsNotChinese(m: string)
    requires "hz" <= m
    ensures !(SumWords[0] <= m)
  {
    assert SumWords[0][0] != m[0];
  }

  /** After the keyword "hz", 和值 matches exactly when its tail does. */
  lemma HzFindsKeyword<T>(m: string, tail: string -> Option<T>, g: T)
    requires "hz" <= m && tail(m[2..]) == Some(g)
    ensures FirstAlt(SumWords, m, tail) == Some(("hz", g))
  {
    HzIsNotChinese(m);
    SumWordsAfterChinese(m, tail);
    FirstAltSingle("hz", m, tail, g);
  }

  lemma SumRuleBuildsBet(m: string, t: string, d: string)
    requires FirstAlt(SumWords, m, SumTail) == Some(("hz", (t, d)))
    ensures AllDigits(d)
    ensures MatchRule(SumRule, m) == Some(Stake(SumOfThree(t, DigitsValue(d))))
  {
  }

  /** After one space, 和值's tail reads the target and then the stake. */
  lemma SumTailAfterSpace(t: string)
    requires |t| > 0 && !IsSpace(t[0])
    ensures SumTail([' '] + t) == (match SumTarget(t)
      case None => None
      case Some(target) => (match StakeTail(t[|target|..])
        case None => None
        case Some(d) => Some((target, d))))
  {
    TrimOneSpace(t);
  }

  lemma TenIsTarget(d: string)
    ensures SumTarget("10" + d) == Some("10")
  {
    var t := "10" + d;
    assert t[0] == '1' && t[1] == '0';
    assert t[..2] == "10";
  }

  lemma TenThenStake(d: string)
    requires |d| > 0 && AllDigits(d)
    ensures SumTail(" 10" + d) == Some(("10", d))
  {
    var t := "10" + d;
    TenIsTarget(d);
    assert t[2..] == d;
    DigitsAreStake(d);
    SumTailAfterSpace(t);
    assert [' '] + t == " 10" + d;
  }

  lemma HzTenThenStake(d: string)
    requires |d| > 0 && AllDigits(d)
    ensures FirstAlt(SumWords, "hz" + (" 10" + d), SumTail) == Some(("hz", ("10", d)))
  {
    var s := " 10" + d;
    var m := "hz" + s;
    assert "hz" <= m && m[2..] == s;
    TenThenStake(d);
    HzFindsKeyword(m, SumTail, ("10", d));
  }

  /**
   * 和值 reads its target before its stake: after "hz 10" every digit string is the
   * stake, so "hz 100" is target 10 with stake 0.
   */
  lemma SumTakesFirstTarget(d: string)
    requires |d| > 0 && AllDigits(d)
    ensures MatchRule(SumRule, "hz" + (" 10" + d)) == Some(Stake(SumOfThree("10", DigitsValue(d))))
  {
    HzTenThenStake(d);
    SumRuleBuildsBet("hz" + (" 10" + d), "10", d);
  }

  /** 指定豹子 is stored under the type tag 豹子, with the face as its choice. */
  lemma ExactTripleStoredAsTriple(m: string)
    requires MatchRule(ExactTripleRule, m).Some?
    ensures MatchRule(ExactTripleRule, m).value.Stake?
    ensures var b := MatchRule(ExactTripleRule, m).value.bet;
      b.ExactTriple? && TypeTag(b) == "豹子" && |b.choice| == 1 && '1' <= b.choice[0] <= '6'
  {
    var r := FirstAlt(TripleWords, m, FaceTail);
    assert r.Some?;
    var g := r.value.1;
    assert FaceTail(m[|r.value.0|..]) == Some(g);
    assert MatchRule(ExactTripleRule, m) == Some(Stake(ExactTriple(g.0, DigitsValue(g.1))));
  }

  /** 定位胆y uses its one digit as both position and face and keeps the stake as text. */
  lemma PositionYKeepsTextStake(m: string)
    requires MatchRule(PositionYRule, m).Some?
    ensures var c := MatchRule(PositionYRule, m).value;
      c.TextStake? && c.position == m[..1] && '1' <= m[0] <= '3'
      && |c.money| > 0 && AllDigits(c.money)
  {
  }

  /**
   * The 大小 choice is the pinyin initial of the token the player typed: 大 is
   * stored as "d", 小 as "x", and the ASCII tokens as typed.
   */
  lemma SizeChoiceIsInitials(m: string)
    requires MatchRule(SizeRule, m).Some?
    ensures MatchRule(SizeRule, m).value.Stake? && MatchRule(SizeRule, m).value.bet.Size?
    ensures var w := m[..HeadLen(m)]; var choice := MatchRule(SizeRule, m).value.bet.choice;
      && w in SizeWords
      && (w == "大" ==> choice == "d")
      && (w == "小" ==> choice == "x")
      && (w in ["d", "x", "da", "xiao"] ==> choice == w)
  {
    var r := FirstAlt(SizeWords, m, StakeTail);
    assert r.Some?;
    assert MatchRule(SizeRule, m) == Some(Stake(Size(Initials(r.value.0), DigitsValue(r.value.1))));
    SizeKeywords();
    AltIsHead(SizeWords, m, StakeTail);
    AsciiInitials(r.value.0);
  }

  /** `lazy_pinyin` leaves an ASCII token unchanged. */
  lemma AsciiInitials(w: string)
    ensures w in ["d", "x", "da", "xiao"] ==> Initials(w) == w
  {
    if w in ["d", "x", "da", "xiao"] {
      assert w[0] in "dx";
    }
  }
}
