/**
 * The `users` table and the statements `database.py` runs on it, as operations
 * on a map from user id to row. Columns the core never reads (join time,
 * top-up and sell counters) and the `transactions` table are not modelled.
 */
module Store {
  import opened Wrappers
  import opened Bets

  type UserId = int

  /**
   * A row of `users`. `bets` is the JSON column: `None` is SQL NULL (the value a
   * freshly inserted row has), `Some(l)` a stored JSON list.
   */
  datatype User = User(name: string, money: int, bets: Option<seq<Bet>>)

  type Db = map<UserId, User>

  /** Why a statement that expects a row fails when there is none. */
  datatype DbError = NoSuchUser(id: UserId)

  /** The list a reader of the column sees: NULL reads as the empty list. */
  function BetList(u: User): seq<Bet> {
    u.bets.GetOr([])
  }

  // ---------------------------------------------------------------------------
  // add_user_db: INSERT IGNORE
  // ---------------------------------------------------------------------------

  function AddUser(db: Db, id: UserId, name: string, defMoney: int): (r: Db)
    ensures r.Keys == db.Keys + {id}
    ensures forall k :: k in db ==> r[k] == db[k]
    ensures id !in db ==> r[id].name == name && r[id].money == defMoney && r[id].bets.None?
  {
    if id in db then db else db[id := User(name, defMoney, None)]
  }

  /** Inserting the same id again, under any name and amount, changes nothing. */
  lemma AddUserIdempotent(db: Db, id: UserId, name: string, defMoney: int, name2: string, defMoney2: int)
    ensures AddUser(AddUser(db, id, name, defMoney), id, name2, defMoney2) == AddUser(db, id, name, defMoney)
  {
  }

  // ---------------------------------------------------------------------------
  // update_balance_db: zip(user_ids, amounts), one UPDATE per pair
  // ---------------------------------------------------------------------------

  /**
   * What the pairs of `zip(ids, amounts)` add to user `u`: the sum of the amounts
   * paired with `u`, over the first `min(|ids|, |amounts|)` positions.
   */
  function Credit(ids: seq<UserId>, amounts: seq<int>, u: UserId): int
    decreases |ids|
  {
    if |ids| == 0 || |amounts| == 0 then 0
    else (if ids[0] == u then amounts[0] else 0) + Credit(ids[1..], amounts[1..], u)
  }

  /** `UPDATE users SET money = money + amount WHERE user_id = id`: no row, no change. */
  function AddMoney(db: Db, id: UserId, amount: int): (r: Db)
    ensures r.Keys == db.Keys
    ensures forall k :: k in db && k != id ==> r[k] == db[k]
    ensures id in db ==> r[id] == db[id].(money := db[id].money + amount)
  {
    if id in db then db[id := db[id].(money := db[id].money + amount)] else db
  }

  function UpdateBalance(db: Db, ids: seq<UserId>, amounts: seq<int>): (r: Db)
    ensures r.Keys == db.Keys
    ensures forall k :: k in db ==> r[k] == db[k].(money := db[k].money + Credit(ids, amounts, k))
    decreases |ids|
  {
    if |ids| == 0 || |amounts| == 0 then db
    else UpdateBalance(AddMoney(db, ids[0], amounts[0]), ids[1..], amounts[1..])
  }

  /** Pairs past the shorter list are ignored. */
  lemma {:induction false} CreditIgnoresExtra(ids: seq<UserId>, amounts: seq<int>, u: UserId)
    ensures var n := if |ids| < |amounts| then |ids| else |amounts|;
      Credit(ids, amounts, u) == Credit(ids[..n], amounts[..n], u)
    decreases |ids|
  {
    var n := if |ids| < |amounts| then |ids| else |amounts|;
    if n > 0 {
      CreditIgnoresExtra(ids[1..], amounts[1..], u);
      assert ids[..n][1..] == ids[1..][..n - 1];
      assert amounts[..n][1..] == amounts[1..][..n - 1];
    }
  }

  /** Pairs listed one after another add up: a repeated id accumulates. */
  lemma {:induction false} CreditConcat(ids1: seq<UserId>, amounts1: seq<int>, ids2: seq<UserId>, amounts2: seq<int>, u: UserId)
    requires |ids1| == |amounts1|
    ensures Credit(ids1 + ids2, amounts1 + amounts2, u) == Credit(ids1, amounts1, u) + Credit(ids2, amounts2, u)
    decreases |ids1|
  {
    if |ids1| > 0 {
      CreditConcat(ids1[1..], amounts1[1..], ids2, amounts2, u);
      assert (ids1 + ids2)[1..] == ids1[1..] + ids2;
      assert (amounts1 + amounts2)[1..] == amounts1[1..] + amounts2;
    } else {
      assert ids1 + ids2 == ids2 && amounts1 + amounts2 == amounts2;
    }
  }

  /** Two calls in a row are one call on the joined lists. */
  lemma UpdateBalanceTwice(db: Db, ids1: seq<UserId>, amounts1: seq<int>, ids2: seq<UserId>, amounts2: seq<int>)
    requires |ids1| == |amounts1|
    ensures UpdateBalance(UpdateBalance(db, ids1, amounts1), ids2, amounts2)
         == UpdateBalance(db, ids1 + ids2, amounts1 + amounts2)
  {
    forall k | k in db
      ensures UpdateBalance(UpdateBalance(db, ids1, amounts1), ids2, amounts2)[k]
           == UpdateBalance(db, ids1 + ids2, amounts1 + amounts2)[k]
    {
      CreditConcat(ids1, amounts1, ids2, amounts2, k);
    }
  }

  // ---------------------------------------------------------------------------
  // get_user_bet_info_db and place_bet_db
  // ---------------------------------------------------------------------------

  /**
   * The user's bet column, read back as a list: NULL and an empty list both read
   * as `[]`. With no row, `fetchone()` is `None` and subscripting it raises.
   */
  function UserBets(db: Db, id: UserId): (r: Result<seq<Bet>, DbError>)
    ensures r.Success? <==> id in db
    ensures r.Success? && db[id].bets.None? ==> r.value == []
    ensures r.Success? && db[id].bets.Some? ==> r.value == db[id].bets.value
  {
    if id in db then Success(BetList(db[id])) else Failure(NoSuchUser(id))
  }

  /** Read the list, append the bet, write the list back. */
  function PlaceBet(db: Db, id: UserId, bet: Bet): (r: Result<Db, DbError>)
    ensures r.Success? <==> id in db
    ensures r.Success? ==> r.value.Keys == db.Keys
    ensures r.Success? ==> forall k :: k in db && k != id ==> r.value[k] == db[k]
    ensures r.Success? ==> r.value[id].name == db[id].name && r.value[id].money == db[id].money
    ensures r.Success? ==> r.value[id].bets == Some(UserBets(db, id).value + [bet])
  {
    match UserBets(db, id)
    case Failure(e) => Failure(e)
    case Success(l) => Success(db[id := db[id].(bets := Some(l + [bet]))])
  }

  // ---------------------------------------------------------------------------
  // delete_bet_db, delete_bets_db: the column becomes JSON_ARRAY()
  // ---------------------------------------------------------------------------

  function DeleteBet(db: Db, ids: seq<UserId>): (r: Db)
    ensures r.Keys == db.Keys
    ensures forall k :: k in db && k in ids ==> r[k] == db[k].(bets := Some([]))
    ensures forall k :: k in db && k !in ids ==> r[k] == db[k]
  {
    if |ids| == 0 then db
    else map k | k in db :: if k in ids then db[k].(bets := Some([])) else db[k]
  }

  function DeleteBets(db: Db): (r: Db)
    ensures r.Keys == db.Keys
    ensures forall k :: k in db ==> r[k] == db[k].(bets := Some([]))
  {
    map k | k in db :: db[k].(bets := Some([]))
  }

  /** Clearing everyone is clearing the list of everyone. */
  lemma DeleteBetsIsDeleteBetOfAll(db: Db, ids: seq<UserId>)
    requires forall k :: k in db ==> k in ids
    ensures DeleteBets(db) == DeleteBet(db, ids)
  {
    var a, b := DeleteBets(db), DeleteBet(db, ids);
    assert forall k :: k in a ==> a[k] == b[k];
  }

  // ---------------------------------------------------------------------------
  // get_users_bet_info_db
  // ---------------------------------------------------------------------------

  /** A row of the bettor query: `user_id, name, bet`. */
  datatype BettorRow = BettorRow(name: string, bets: seq<Bet>)

  /**
   * `WHERE bet IS NOT NULL AND TRIM(bet) != '[]' AND TRIM(bet) != ''`: the column
   * holds JSON, whose text is `[]` exactly for the empty list and never empty.
   */
  function Bettors(db: Db): (r: map<UserId, BettorRow>)
    ensures forall k :: k in r <==> k in db && db[k].bets.Some? && |db[k].bets.value| > 0
    ensures forall k :: k in r ==> r[k] == BettorRow(db[k].name, db[k].bets.value)
  {
    map k | k in db && db[k].bets.Some? && |db[k].bets.value| > 0 :: BettorRow(db[k].name, db[k].bets.value)
  }

  /** A placed bet makes its user a bettor; clearing everyone leaves no bettor. */
  lemma PlacedBetMakesBettor(db: Db, id: UserId, bet: Bet)
    requires id in db
    ensures id in Bettors(PlaceBet(db, id, bet).value)
    ensures Bettors(PlaceBet(db, id, bet).value)[id].bets == BetList(db[id]) + [bet]
  {
  }

  lemma NoBettorsAfterDeleteBets(db: Db)
    ensures Bettors(DeleteBets(db)) == map[]
  {
    var r := Bettors(DeleteBets(db));
    assert r.Keys == {};
  }

  /** Balances survive every bet-column statement. */
  lemma BetStatementsKeepMoney(db: Db, id: UserId, bet: Bet, ids: seq<UserId>)
    requires id in db
    ensures PlaceBet(db, id, bet).value[id].money == db[id].money
    ensures DeleteBet(db, ids)[id].money == db[id].money
    ensures DeleteBets(db)[id].money == db[id].money
  {
  }
}
