# tg-gamble-bot: a Dafny model of the betting core

This project models the core of a Telegram dice-betting bot. The original is
written in Python. Players send short text bets such as `大 100`, `hz 10 50`
or `dwd 2 6 30`. The bot normalises the text and tries ten regular-expression
rules on it. It registers unknown players with a configured starting balance,
refuses stakes above the balance and appends accepted bets to the player's
list in a MySQL `users` table. `/cancel` refunds the summed stakes and clears
the list. An admin starts and ends the game and reads two reports. A round
opens betting, a countdown closes it, and the dice total is classified as
涨 (8 or less) or 跌 (9 or more). Around this sit two retry loops for the chat
API, a round-number counter kept in a file, and a 6 x 14 trend chart of past
totals.

The model consists of pure functions over immutable datatypes:

- `Wrappers`: `Option` and `Result`.
- `Text`: Python's whitespace set and `str.strip`, and `re.sub(r'\s+', ' ', m)`.
  It also covers ASCII digit strings, their value and `str(n)`, and the name
  formats the handlers build.
- `Bets`: the bet record and the ten `BETTING_RULES` patterns. Each pattern
  is written as a matcher that follows the regex engine's choices: the first
  alternative that lets the rest match, with greedy `\s*` before a
  non-space token. `MatchRule` hands each rule to a function of its own
  (`MatchSize`, `MatchSum`, ...) that pairs the pattern with the branch of
  `handle_message` building its record.
- `Acceptance`: the converse direction. Every message written as a rule's
  keyword, whitespace runs and well-formed fields is matched, and yields the
  record those fields describe.
- `Store`: the `users` table as a map from user id to row, plus the
  statements of `database.py` as map operations.
- `Handlers`: `handle_message`, `start` and `cancel_bet`. Replies are
  returned as values. A handler that raises ends with status `Crashed`, and
  the store is left as it was when it raised.
- `Round`: the module-level `GameState`, the `bot_data` keys, `start_round`,
  the countdown, `handle_dice_roll`, `settle_bets`, and the admin
  `start_game`/`end_game`. Timers become events, and a `Run` folds a
  sequence of events from the initial world.
- `Dispatch`: `safe_send_message` and `safe_send_dice`. Each is a function
  of the sequence of outcomes the API would produce, and returns what was
  delivered together with the sleeps taken.
- `Issue`: the round code `K` + 16 zero-padded digits, and the counter file
  it advances. The file is a value: `None` when it does not exist.
- `Trend`: the grid fill, big/small counts and reset of `dice_photo`.
- `Reports`: the stable descending sort and listing of `show_bets` and
  `show_moneys`.

The code has no odds table, no payout evaluator and no highest-stake
selection. `settle_bets` only compares a stored choice with the 涨/跌 label,
and nothing ever fills `highest_bet_userid`. The docstring of `end_game`
(handlers_admin.py:29-35) promises more: roll the dice, add double the stake
to the winners' balances and clear every bet. Its body only replies
(handlers_admin.py:36-43). Where the docstring and the code disagree, the
model follows the code. `Round.EndGame` proves that `end_game` leaves the
whole state unchanged, and in every reachable state a countdown ends with
"no bettors" and no dice are rolled (`Round.CountdownNeverRolls`).

Some behaviours of the code as written are modelled and proved as such:

- Placing a bet does not debit the stake, but `/cancel` refunds it
  (`Handlers.PlaceThenCancel`).
- The 定位胆y rule keeps the stake as a string. The `int < str` comparison
  then raises before any bet is placed (`Handlers.PositionYCrashes`).
- `start_game` writes `running = False` just before testing it, so the
  "already running" reply never appears (`Round.StartGame`).
- `show_bets` sorts on a `bet_amount` key that its query never selects. It
  therefore raises `KeyError` as soon as anybody has a bet
  (`Reports.ShowBets`). The listing that the rest of `show_bets` performs is
  modelled separately on rows that do carry an amount (`Reports.BetsReport`).
- `handle_dice_roll` calls `start_round(context)` with one argument where
  two are needed. The model starts the new round that the call evidently
  means.

## Model

| member | source | states |
|---|---|---|
| `Text.Collapse` | handlers.py:32 | Every whitespace run becomes a single space: the result has no two adjacent whitespace characters, is empty exactly when the input is, and starts with whitespace exactly when the input does |
| `Text.CollapseRun` | handlers.py:32 | A whitespace run of any length between two visible characters becomes exactly one space, and the text on either side is collapsed on its own |
| `Text.NormalizeRun` | handlers.py:32 | For a message with visible text on both sides of a whitespace run, normalising the whole equals normalising each side and joining them with one space |
| `Text.StripPadded` | handlers.py:32 | `strip()` removes any whitespace padding on both sides and keeps the visible text between |
| `Text.Normalize` | handlers.py:32 | A normalised message has no leading or trailing whitespace and no two adjacent whitespace characters |
| `Text.NormalizeOfNormal` | handlers.py:32 | A message that is already normal is left unchanged |
| `Text.NormalizeIdempotent` | handlers.py:32 | Normalising twice gives the same message as normalising once |
| `Text.NormalizeKeepsVisible` | handlers.py:32 | Normalisation only touches whitespace: the non-whitespace characters survive, in order |
| `Text.StripIsSlice` | handlers.py:44 | `strip()` returns the contiguous slice that starts after the leading whitespace |
| `Text.MessageNameKeepsVisible` | handlers.py:42-44 | The name registered from a message keeps every visible character of the first and last names, in order |
| `Text.Decimal` | game_logic_func.py:93 | `str(n)` is a non-empty string of digits whose value is `n` |
| `Text.DecimalLength` | game_logic_func.py:89 | `str(n)` has at most `k` digits exactly when `n < 10^k` |
| `Bets.StakeTail` | handlers.py:13 | On a normalised message, `\s*(\d+)$` matches exactly when what follows the spaces is a non-empty run of digits, and that run is the stake |
| `Bets.FaceTail` | handlers.py:17 | A match of `\s*([1-6]) (\d+)$` is the text after the leading whitespace, taken apart as one face 1-6, one literal space and a non-empty run of digits |
| `Bets.SumTarget` | handlers.py:15 | A match of the 和值 target alternation is a prefix of the text written as the canonical decimal of a number in 4..17 |
| `Bets.SumTail` | handlers.py:15 | A match of the 和值 tail takes the text after the leading whitespace apart: a target in 4..17 at its front, then whitespace, then the rest, which is a non-empty stake |
| `Bets.PositionTail` | handlers.py:21 | A match of the 定位胆 tail takes the text apart as whitespace, a position 1-3, whitespace, a face 1-6, whitespace and the rest, which is a non-empty stake; it yields exactly those three fields |
| `Bets.PositionY` | handlers.py:22 | A match of the 定位胆y pattern is a position digit 1-3, which it yields, then whitespace, `y`, whitespace and the rest, which is the non-empty stake it yields |
| `Bets.FirstAlt` | handlers.py:13-22 | An alternation matches exactly when some alternative fits, that is, is a prefix of the message and lets the rest of the pattern match what follows. It then picks the first alternative that fits and yields what the rest matched |
| `Bets.FirstFit` | handlers.py:13-22 | The index found is that of the first alternative that fits: no earlier one fits, and it equals the number of alternatives exactly when none fits |
| `Acceptance.StakeTailAccepts` | handlers.py:13 | `\s*(\d+)$` matches any whitespace run followed by a non-empty run of digits, and yields those digits |
| `Acceptance.FaceTailAccepts` | handlers.py:17 | `\s*([1-6]) (\d+)$` matches whitespace, a face 1-6, one space and digits, and yields the face and the digits |
| `Acceptance.SumTargetAccepts` | handlers.py:15 | Each of the fourteen target alternatives, written in decimal, is recognised at the front of any text |
| `Acceptance.SumTailAccepts` | handlers.py:15 | The 和值 tail matches any target 4..17 and stake with whitespace runs before and between them |
| `Acceptance.PositionTailAccepts` | handlers.py:21 | The 定位胆 tail matches any position 1-3, face 1-6 and stake with whitespace runs before and between them |
| `Acceptance.PositionYAccepts` | handlers.py:22 | The 定位胆y pattern matches a position 1-3, whitespace, `y`, whitespace and a stake, and yields the position and the stake |
| `Acceptance.FirstAltKeyword` | handlers.py:13-22 | When the message starts with one of a rule's keywords and the rest of the pattern matches what follows, the alternation picks that keyword |
| `Acceptance.SizeAccepted` | handlers.py:13 | Any 大小 keyword, whitespace and stake is matched and stored with the keyword's initials and the stake's value (the record is built at lines 52-58) |
| `Acceptance.SizeParityAccepted` | handlers.py:14 | Any 大小单双 keyword, whitespace and stake is matched and stored with the keyword's initials and the stake's value (the record is built at lines 59-65) |
| `Acceptance.SumAccepted` | handlers.py:15 | Any 和值 keyword with a target 4..17 and a stake is matched and stores the target as typed and the stake's value (the record is built at lines 66-71) |
| `Acceptance.PairAccepted` | handlers.py:16 | Any 对子 keyword, whitespace and stake is matched and stores the stake's value (the record is built at lines 72-76) |
| `Acceptance.ExactPairAccepted` | handlers.py:17 | Any 对子 keyword, whitespace, face 1-6, one space and stake is matched by 指定对子 and stores the face as a number and the stake's value (the record is built at lines 77-82) |
| `Acceptance.StraightAccepted` | handlers.py:18 | Any 顺子 keyword, whitespace and stake is matched and stores the stake's value (the record is built at lines 83-87) |
| `Acceptance.TripleAccepted` | handlers.py:19 | Any 豹子 keyword, whitespace and stake is matched and stores the stake's value (the record is built at lines 88-92) |
| `Acceptance.ExactTripleAccepted` | handlers.py:20 | Any 豹子 keyword, whitespace, face 1-6, one space and stake is matched by 指定豹子 and stores the face as text and the stake's value (the record is built at lines 93-98) |
| `Acceptance.PositionAccepted` | handlers.py:21 | Any 定位胆 keyword followed by position, face and stake, with whitespace runs between them, is matched and stores all three (the record is built at lines 99-105) |
| `Acceptance.PositionYAccepted` | handlers.py:22 | Any position 1-3, `y` and stake with whitespace runs between them is matched by 定位胆y, which keeps the stake as text (the record is built at lines 106-111) |
| `Bets.AltIsHead` | handlers.py:13-21 | The chosen keyword is exactly the maximal leading run without spaces or digits |
| `Bets.MatchedHead` | handlers.py:12-23 | A matching message starts with one of its rule's keywords as that maximal run; only 定位胆y has an empty run |
| `Bets.StakeAndFaceDisjoint` | handlers.py:16-17 | 对子 and 指定对子 never both match the same message |
| `Bets.RulesDisjoint` | handlers.py:12-23 | Two different rules never both match the same message |
| `Bets.SumTakesFirstTarget` | handlers.py:15 | For `hz 10<digits>` the target is the first alternative that lets the rest match, 10, and the remaining digits are the stake (so `hz 100` stakes 0 on 10) |
| `Bets.ExactTripleStoredAsTriple` | handlers.py:93-98 | 指定豹子 is stored with the type tag of 豹子 plus a face choice |
| `Bets.PositionYKeepsTextStake` | handlers.py:106-111 | 定位胆y yields a position equal to its face and a stake that is still text |
| `Bets.SizeChoiceIsInitials` | handlers.py:13 | The stored 大小 choice is tied to the token typed: 大 is stored as `d`, 小 as `x`, and each ASCII token as typed (the record is built at lines 52-58) |
| `Store.AddUser` | database.py:72-75 | Insert-ignore: the id becomes a key, existing rows are untouched, and a new row has the given name, the default money and a NULL bet column |
| `Store.AddUserIdempotent` | database.py:74 | Adding the same id again changes nothing, whatever name and amount are given |
| `Store.AddMoney` | database.py:81 | One `UPDATE ... money = money + amount` changes only that row's money, and a missing id changes nothing |
| `Store.UpdateBalance` | database.py:78-82 | Every row's money grows by the sum of the amounts zipped with its id; nothing else changes |
| `Store.CreditIgnoresExtra` | database.py:80 | `zip` stops at the shorter list: extra ids or amounts have no effect |
| `Store.CreditConcat` | database.py:80-81 | Crediting two batches adds up their credits |
| `Store.UpdateBalanceTwice` | database.py:78-82 | Two balance updates equal one update with the concatenated lists |
| `Store.UserBets` | database.py:124-130 | The bet lookup succeeds exactly for existing users, and a NULL or empty column reads as the empty list |
| `Store.PlaceBet` | database.py:85-91 | Appending a bet succeeds exactly for existing users, appends exactly that bet to their list, and leaves their name, money and every other row unchanged |
| `Store.DeleteBet` | database.py:94-101 | The listed users' bets become the empty list and all other rows are unchanged; an empty id list changes nothing |
| `Store.DeleteBets` | database.py:104-107 | Every user's bets become the empty list, with names and money unchanged |
| `Store.DeleteBetsIsDeleteBetOfAll` | database.py:94-107 | Clearing everybody equals clearing a list that names every user |
| `Store.Bettors` | database.py:133-143 | The bettor query returns exactly the users whose bet column holds a non-empty list |
| `Store.PlacedBetMakesBettor` | database.py:133-143 | After a bet is placed its user is a bettor, and the query shows the extended list |
| `Store.NoBettorsAfterDeleteBets` | database.py:104-107 | After all bets are cleared nobody is a bettor |
| `Store.BetStatementsKeepMoney` | database.py:85-107 | Placing, clearing one and clearing all bets never change a balance |
| `Handlers.Admit` | handlers.py:45-114 | The sender is registered first. A stake above the balance returns the "insufficient" reply and appends nothing. Otherwise exactly the bet is appended and confirmed. A text stake raises. No balance or other row changes |
| `Handlers.HandleMessage` | handlers.py:29-31 | A message without text is ignored |
| `Handlers.ParseIn` | handlers.py:35-36 | A rule list yields a candidate exactly when one of its rules matches, and then it is that rule's candidate |
| `Handlers.LoopWithoutMatch` | handlers.py:35-37 | When no rule matches, the loop changes nothing and adds no reply |
| `Handlers.LoopIsApply` | handlers.py:35-114 | When rules are pairwise exclusive, the loop without `break` performs exactly the admission of the matching rule |
| `Handlers.RulesExclusive` | handlers.py:12-23 | No two of the ten rules match the same message |
| `Handlers.HandleMessageIsParseThenAdmit` | handlers.py:27-114 | Handling a message equals normalising it, parsing it with the unique matching rule, and admitting that candidate if the game runs |
| `Handlers.IgnoredMessageKeepsStore` | handlers.py:36-37 | When no rule matches, or the game is not running, the store is exactly as before and nothing is said |
| `Handlers.ApplyAppendsAtMostOne` | handlers.py:37-113 | One admission adds no row but the sender's, changes no other row, and changes the sender's row only by at most one appended bet |
| `Handlers.HandleMessageAppendsAtMostOne` | handlers.py:35-113 | A whole message adds no row but the sender's, appends at most one bet, to the sender only, and changes no balance |
| `Handlers.AdmitBoundaries` | handlers.py:55-56 | A stake equal to the balance, or a zero stake, is admitted |
| `Handlers.UnknownSenderIsCreated` | handlers.py:45-48 | An unknown sender is created with the default money and the message name, even when the bet is then refused |
| `Handlers.ParseInFindsTheMatch` | handlers.py:35-37 | Among pairwise exclusive rules, the parse is the candidate of the rule that matches |
| `Handlers.ParseIsTheMatch` | handlers.py:35-37 | Whichever rule matches a message, the parse is that rule's candidate |
| `Handlers.MatchedBetIsPlaced` | handlers.py:35-114 | In a running game, a message that a rule matches with a stake the balance covers is placed: the bet is appended to the sender's list and the normalised message is confirmed |
| `Handlers.SpacedExactPairIsPlaced` | handlers.py:32-114 | A 指定对子 bet typed with whitespace runs of any length between keyword, face and stake is placed, because normalisation leaves the single space the pattern requires |
| `Handlers.FieldsNormalize` | handlers.py:32 | Whitespace runs between a keyword, a face and a stake each become one space |
| `Handlers.PositionYParsesAsText` | handlers.py:106-108 | A 定位胆y message parses to a text stake |
| `Handlers.PositionYCrashes` | handlers.py:106-111 | A 定位胆y message in a running game raises after registering the sender and before placing any bet |
| `Handlers.Start` | handlers.py:118-151 | Without a database there is an error reply. A known user is told so and nothing changes. A new user gets a row with the joined name, the default money and no bets, and is welcomed with them |
| `Handlers.StartTwice` | handlers.py:130-134 | A second `/start` leaves the store as the first one left it |
| `Handlers.StakesAppend` | handlers.py:186-188 | The summed stakes of a list grow by the stake of an appended bet |
| `Handlers.CancelBet` | handlers.py:174-197 | The user's balance grows by the sum of their stakes and their list is emptied, other rows unchanged. A zero sum still runs both updates but replies "nothing to cancel". An unknown user makes the lookup raise |
| `Handlers.PlaceThenCancel` | handlers.py:184-192 | Placing a bet and then cancelling raises the balance by the stake, which was never debited |
| `Round.StartRound` | game_logic.py:20-31 | A new round opens betting, empties the round's bets, creates the empty `highest_bet_user`, and arms a 20-second countdown; nothing else changes |
| `Round.Total` | game_logic.py:65-68 | The total of three dice lies in 3..18 |
| `Round.LabelCounts` | game_logic.py:64-71 | Of the 216 equally likely rolls of three dice, 56 are labelled 涨 and 160 跌 |
| `Round.Settle` | game_logic.py:76-81 | Each round bet gets one message, in order: a win exactly when its choice equals the result, a loss otherwise, with its user and amount |
| `Round.SettleByTotal` | game_logic.py:71-81 | After a roll a stored choice wins exactly when it is 跌 and the total is 9 or more, or 涨 and the total is 8 or less |
| `Round.HandleDiceRoll` | game_logic.py:48-74 | With nobody in `highest_bet_userid` the round ends unrolled; otherwise the total, the settlement and a new round follow. Either way a new round opens and the store is untouched |
| `Round.CloseBetting` | game_logic.py:36-39 | After the countdown's sleep betting is closed; `running`, the round's bets, both highest-bettor fields, the countdown task, `bot_data` and the store are unchanged |
| `Round.Countdown` | game_logic.py:36-41 | As written, an armed countdown closes betting and then raises at the debug print of the dice value, so nothing is announced, no roll follows and no bet or store row changes; with none armed nothing happens |
| `Round.CountdownExpired` | game_logic.py:36-44 | Without the debug prints, an expiring countdown would first announce that betting closed and leave the store alone; with no countdown armed nothing happens |
| `Round.RollIgnoresBettingOpen` | game_logic.py:48-74 | The roll path gives the same result whatever `betting_open` holds |
| `Round.StartGame` | handlers_admin.py:11-24 | After `start_game`, `running` is true, the game number is the configured one, the bettor list and the bet map are empty, and no countdown is recorded. The "already running" reply is never given |
| `Round.StartGameTwice` | handlers_admin.py:12-21 | A second `start_game` resets `bot_data` the same way and arms one more countdown |
| `Round.EndGame` | handlers_admin.py:29-43 | `end_game` changes no state. A missing last name raises before anything is said; without a database only the error is replied; otherwise the notice names the admin |
| `Round.Next` | handlers.py:37 | A chat message changes neither `bot_data`, the round state nor the armed countdowns |
| `Round.NextKeepsNoRoundBets` | game_logic.py:9-16 | No event adds to `highest_bet_userid` or to the round's bets |
| `Round.RunKeepsNoRoundBets` | game_logic.py:13-14 | Over any sequence of events, `highest_bet_userid` and the round's bets stay empty |
| `Round.CountdownNeverRolls` | game_logic.py:54-57 | In every reachable state a countdown ends with "no bettors" and a new round, never with a roll |
| `Round.BettingOpenIsNeverRead` | handlers.py:37 | Flipping `betting_open` changes neither what any event says nor the store, `bot_data` or the armed countdowns it leaves: bets are taken whenever `running` is set |
| `Dispatch.Backoff` | game_logic_func.py:21-31 | Attempts run from the given one until a delivery or the fifth attempt; every slept-after attempt failed, and a delivery is the outcome at its position |
| `Dispatch.BackoffSleeps` | game_logic_func.py:24-31 | Each sleep is the delay in force, or `min(retry_after, 2 * delay)` on RetryAfter; the next delay is twice that sleep |
| `Dispatch.SafeSendMessage` | game_logic_func.py:16-34 | Delivery happens exactly when one of the first five calls succeeds. It is the first success, preceded by one sleep per failure; after five failures the result is None with five sleeps |
| `Dispatch.AtMostFiveCalls` | game_logic_func.py:19-23 | At most five API calls are made, and a first-call success sleeps not at all |
| `Dispatch.NetworkFailuresDouble` | game_logic_func.py:27-31 | With only network failures the sleeps are 1, 2, 4, 8, 16 and nothing is delivered |
| `Dispatch.RetryAfterCapsTheSleep` | game_logic_func.py:24-31 | A server asking for 1 second every time gets five 1-second sleeps |
| `Dispatch.DiceAttempts` | game_logic_func.py:39-47 | Dice attempts stop at the first delivery or after the third attempt; RetryAfter(r) sleeps r, a network failure sleeps 5 |
| `Dispatch.SafeSendDice` | game_logic_func.py:37-50 | The dice are delivered exactly when one of three attempts succeeds. RetryAfter(r) sleeps exactly r, a network failure exactly 5 seconds, and three failures give None |
| `Issue.ZeroPad` | game_logic_func.py:89 | `{n:016d}` is at least 16 digits whose value is `n` |
| `Issue.CodeRoundTrip` | game_logic_func.py:88-89 | Below 10^16 the code is 17 characters: `K` followed by digits that read back as the counter |
| `Issue.CodesDistinct` | game_logic_func.py:88-89 | Different counters below 10^16 give different codes |
| `Issue.LongCounterIsNotTruncated` | game_logic_func.py:89 | From 10^16 on the number is not truncated and the code grows past 17 characters |
| `Issue.ReadCounter` | game_logic_func.py:71-85 | A missing file reads as 1. A file reads successfully exactly when its stripped content is a non-empty run of digits, and then gives their value; otherwise it fails naming the content |
| `Issue.NextIssue` | game_logic_func.py:65-95 | A call succeeds exactly when the counter can be read, and then issues the code of that counter |
| `Issue.IssueAdvancesByOne` | game_logic_func.py:80-93 | The file a call writes holds `str(counter + 1)`, and reads back as exactly one more than before |
| `Issue.FirstIssueFromNoFile` | game_logic_func.py:71-73 | Without a counter file the first call issues the code of 1 and leaves "2" behind |
| `Issue.FirstCode` | game_logic_func.py:88-89 | The first code is `K0000000000000001` |
| `Trend.EmptyGrid` | game_logic_func.py:104 | The starting grid has 6 rows of 14 empty cells |
| `Trend.Fill` | game_logic_func.py:104-108 | Up to 84 totals fill the grid column by column, with every other cell left empty; from the 85th total on, the fill raises an index error |
| `Trend.CellOfFilled` | game_logic_func.py:105-108 | Total `i` sits at row `i mod 6`, column `i div 6`, and the cells past the list are empty |
| `Trend.BigPlusSmall` | game_logic_func.py:115-116 | Every total counts as exactly one of big (10 or more) and small (9 or less) |
| `Trend.TallyOfFilled` | game_logic_func.py:115-116 | Counting big or small cells of the filled grid counts the big or small totals of the list |
| `Trend.DicePhoto` | game_logic_func.py:98-159 | For at most 84 totals: the big and small counts are those of the list and add up to its length, and the list is cleared exactly when it has 84 entries. With more totals the chart raises and nothing is cleared |
| `Reports.InsertPermutes` | handlers_admin.py:57 | Inserting adds exactly the one element |
| `Reports.InsertKeepsOrder` | handlers_admin.py:57 | Inserting into a non-increasing list keeps it non-increasing |
| `Reports.SortDesc` | handlers_admin.py:57 | `sorted(..., reverse=True)` is a permutation of its input and is non-increasing in the key |
| `Reports.InsertIsStable` | handlers_admin.py:57 | An inserted element goes after every element with an equal key |
| `Reports.SortIsStable` | handlers_admin.py:57 | Elements with equal keys keep their input order |
| `Reports.UntilZero` | handlers_admin.py:60-63 | The listing is the longest prefix of the sorted rows without a zero amount; it stops at the first zero |
| `Reports.BetsReport` | handlers_admin.py:57-68 | The listing is non-empty, non-increasing in amount, drawn from the rows and free of zero amounts, or it is the "nobody has bet" reply |
| `Reports.SortedNoNegative` | handlers_admin.py:57 | Sorting keeps amounts non-negative |
| `Reports.UntilZeroLeavesZeros` | handlers_admin.py:60-62 | With non-negative amounts, every row after the listed ones has amount zero |
| `Reports.ListedIsStable` | handlers_admin.py:57-63 | With non-negative amounts, the rows listed with a non-zero amount `k` are all rows with amount `k`, in query order |
| `Reports.NothingListedIffAllZero` | handlers_admin.py:60-67 | With non-negative amounts, nothing is listed exactly when every amount is zero |
| `Reports.BetsReportListsEveryStake` | handlers_admin.py:57-67 | With non-negative amounts, the reply is "nobody has bet" exactly when every amount is zero; otherwise every non-zero row is listed in query order within its amount |
| `Reports.SortKeepsMembers` | handlers_admin.py:57 | Sorting neither adds nor drops an element |
| `Reports.ShowBets` | handlers_admin.py:49-68 | As written, `show_bets` raises `KeyError` exactly when some user has a non-empty bet list, and otherwise replies "nobody has bet" |
| `Reports.ShowBetsAfterBetting` | handlers_admin.py:56-57 | After any bet is placed `show_bets` raises, and after all bets are cleared it replies "nobody has bet" |
| `Reports.QueryOrderCountsRows` | database.py:145-149 | The balance query returns one row per user |
| `Reports.MoneyRows` | database.py:145-149 | Each returned row carries the name, id and money of the user in that position |
| `Reports.MoneyRowsHoldEveryUser` | database.py:145-149 | Every user's row is returned, and every returned row is a user's current row |
| `Reports.ShowMoneys` | handlers_admin.py:73-87 | Without a database there is an error reply. Otherwise there is one line per user, every user's balance appears, and the lines are non-increasing in money |
| `Reports.ShowMoneysKeepsQueryOrder` | handlers_admin.py:81 | Users with equal balances are listed in the order the query returned them |

## Left out

- Telegram transport (`reply_text`, `reply_photo`, `send_message`, `send_dice`): replies and announcements are returned as values, and send failures inside handlers are not modelled.
- The MySQL connection and schema (database.py:16-70): the store is a map. A failed connection is a `connected` parameter where the handler tests for it. Columns the core never reads and the `transactions` table are left out.
- asyncio tasks, the `counter_lock` and real sleeps: timers are events, and sleeps are returned durations.
- File I/O and encoding detection in `issue` (game_logic_func.py:53-60, 72-85): the counter file is a value, and both read attempts are taken to see the same content.
- The matplotlib drawing and base64 encoding of `dice_photo` (game_logic_func.py:110-157, 161-167).
- `lazy_pinyin`: a fixed table for the Chinese tokens, with ASCII tokens kept as they are.
- `show_money` and `show_bet` (handlers.py:154-217): they are not modelled.
- Handlers.HandleMessage: handlers.py:6 imports `format_bet_data` from game_logic_func.py, which never defines that name. As written, loading `handlers` therefore raises `ImportError`, and so does main.py:2 through it, so `handle_message`, `start` and `cancel_bet` could never run. The model assumes the module loads.
- utils.py (admin check, command logging, HTTP lookup) and main.py (handler wiring).
- Round.CountdownExpired: the debug print of `update.message.dice.value` (game_logic.py:41) always raises, so no countdown as written ever announces or rolls. `Round.Countdown` models that, and it is what a countdown event does. `CountdownExpired` is the countdown with the prints removed, which the rest of the round is proved against.
- Round.HandleDiceRoll: `context.job.chat_id` (game_logic.py:55, 67) is not modelled as a crash. The roll path is taken to reach the new round.
- Handlers.HandleMessage: a `connect_to_db` that fails (handlers.py:39) returns `(None, None)`, and the user lookup at handlers.py:45 then raises on the `None` cursor (database.py:112). The model has no such crash: its store is always reachable once a rule matches. The same holds for `handle_dice_roll` (game_logic.py:50-51).
- Dispatch.SafeSendMessage: only RetryAfter, TimedOut and NetworkError are caught (game_logic_func.py:24, 27). Any other TelegramError, such as Forbidden, escapes the call at line 23 and ends the loop; the model's outcomes are only success and the two caught failures. `retry_after` is taken to be a whole number of seconds (a nat). Dispatch.SafeSendDice has the same limits for the call at line 41.
- Round.HandleDiceRoll: the wrong-arity `start_round(context)` (game_logic.py:74) would raise; the model opens the new round the call evidently intends.
- The announcement says bets close in 60 seconds while the countdown is 20 seconds. Only the 20 is modelled.
- Bets.StakeTail: every matcher reads the pattern's `$` as the end of the text. Python's `$` also matches just before a final newline, so `大 5\n` would match there with stake 5. The two readings agree on normalised messages, which never end in a newline, and `handle_message` matches only those. The same holds for every pattern and for `Bets.RulesDisjoint`, which is proved for the model's matchers.
- Text.IsDigit: `\d` and `int()` accept every Unicode decimal digit, and the model accepts only ASCII 0-9.
- Issue.ReadCounter: `int()` also accepts a sign, underscores between digits and Unicode digits. The model reads only unsigned ASCII digit strings and reports anything else as unparsable.
- Store.User: integer widths (INT/BIGINT), VARCHAR(255) name truncation and the JSON text encoding of the bet column are not modelled. Money is an unbounded integer and bets are a list of records.
- Trend.DicePhoto: totals are integers. The float grid of numpy only matters for the NaN cells, which are modelled as empty cells that count as neither big nor small. Nothing in the modelled files ever appends to `total_points` or calls `dice_photo`.
- Reports.BetsReport: lines are the listed rows, not the formatted text. The `strip()` of the joined text is not modelled.
- Reports.BetsReportListsEveryStake: stated only for non-negative amounts, which is what stakes are. With negative amounts the listing also stops at the first zero, as `BetsReport` states.
- Reports.ShowMoneys: the row order of a query without `ORDER BY` is a parameter (`order`), assumed to list every user exactly once.
