/**
 * The admin reports `show_bets` and `show_moneys`: rows sorted by a key from
 * high to low (Python's `sorted(..., reverse=True)`, which is stable), then
 * listed. Line formatting is not modelled: a reply carries the rows it lists.
 */
module Reports {
  import opened Wrappers
  import opened Bets
  import opened Store

  // ---------------------------------------------------------------------------
  // sorted(rows, key=..., reverse=True)
  // ---------------------------------------------------------------------------

  predicate NonIncreasing<T>(s: seq<T>, key: T -> int) {
    forall i, j :: 0 <= i < j < |s| ==> key(s[i]) >= key(s[j])
  }

  /** Puts `x` after every element whose key is at least its own. */
  function Insert<T>(x: T, s: seq<T>, key: T -> int): seq<T>
    decreases |s|
  {
    if s == [] || key(s[0]) < key(x) then [x] + s else [s[0]] + Insert(x, s[1..], key)
  }

  lemma {:induction false} InsertPermutes<T>(x: T, s: seq<T>, key: T -> int)
    ensures multiset(Insert(x, s, key)) == multiset(s) + multiset{x}
    decreases |s|
  {
    if s != [] && key(s[0]) >= key(x) {
      InsertPermutes(x, s[1..], key);
      assert s == [s[0]] + s[1..];
    }
  }

  lemma {:induction false} InsertKeepsOrder<T>(x: T, s: seq<T>, key: T -> int)
    requires NonIncreasing(s, key)
    ensures NonIncreasing(Insert(x, s, key), key)
    decreases |s|
  {
    if s != [] && key(s[0]) >= key(x) {
      var rest := Insert(x, s[1..], key);
      InsertKeepsOrder(x, s[1..], key);
      InsertPermutes(x, s[1..], key);
      forall j | 0 <= j < |rest| ensures key(s[0]) >= key(rest[j]) {
        assert rest[j] in multiset(rest);
        if rest[j] != x {
          assert rest[j] in multiset(s[1..]);
          var m :| 0 <= m < |s[1..]| && s[1..][m] == rest[j];
          assert s[m + 1] == rest[j];
        }
      }
    }
  }

  /** Insertion sort from the last element back: the order `sorted(..., reverse=True)` produces. */
  function SortDesc<T>(s: seq<T>, key: T -> int): (r: seq<T>)
    ensures multiset(r) == multiset(s)
    ensures NonIncreasing(r, key)
    decreases |s|
  {
    if s == [] then []
    else
      var prefix := SortDesc(s[..|s| - 1], key);
      InsertKeepsOrder(s[|s| - 1], prefix, key);
      InsertPermutes(s[|s| - 1], prefix, key);
      assert s == s[..|s| - 1] + [s[|s| - 1]];
      Insert(s[|s| - 1], prefix, key)
  }

  /** `[x]` when its key is `k`, `[]` otherwise. */
  function Keep<T>(x: T, key: T -> int, k: int): seq<T> {
    if key(x) == k then [x] else []
  }

  /** The elements of `s` whose key is `k`, in their order in `s`. */
  function Filter<T>(s: seq<T>, key: T -> int, k: int): seq<T>
    decreases |s|
  {
    if s == [] then [] else Keep(s[0], key, k) + Filter(s[1..], key, k)
  }

  lemma FilterCons<T>(x: T, s: seq<T>, key: T -> int, k: int)
    ensures Filter([x] + s, key, k) == Keep(x, key, k) + Filter(s, key, k)
  {
    assert ([x] + s)[0] == x;
    assert ([x] + s)[1..] == s;
  }

  lemma FilterSingle<T>(x: T, key: T -> int, k: int)
    ensures Filter([x], key, k) == Keep(x, key, k)
  {
    assert [x][1..] == [];
  }

  lemma FilterConsBoth<T>(y: T, a: seq<T>, b: seq<T>, c: seq<T>, key: T -> int, k: int)
    requires Filter(a, key, k) == Filter(b, key, k) + c
    ensures Filter([y] + a, key, k) == Filter([y] + b, key, k) + c
  {
    FilterCons(y, a, key, k);
    FilterCons(y, b, key, k);
    var h := Keep(y, key, k);
    assert h + (Filter(b, key, k) + c) == (h + Filter(b, key, k)) + c;
  }

  lemma {:induction false} FilterConcat<T>(a: seq<T>, b: seq<T>, key: T -> int, k: int)
    ensures Filter(a + b, key, k) == Filter(a, key, k) + Filter(b, key, k)
    decreases |a|
  {
    if a == [] {
      assert a + b == b;
    } else {
      FilterConcat(a[1..], b, key, k);
      assert a + b == [a[0]] + (a[1..] + b);
      FilterCons(a[0], a[1..] + b, key, k);
      var h := Keep(a[0], key, k);
      assert Filter(a, key, k) == h + Filter(a[1..], key, k);
      assert h + (Filter(a[1..], key, k) + Filter(b, key, k)) == (h + Filter(a[1..], key, k)) + Filter(b, key, k);
    }
  }

  lemma {:induction false} FilterMissing<T>(s: seq<T>, key: T -> int, k: int)
    requires forall i :: 0 <= i < |s| ==> key(s[i]) != k
    ensures Filter(s, key, k) == []
    decreases |s|
  {
    if s != [] {
      FilterMissing(s[1..], key, k);
    }
  }

  lemma {:induction false} InsertIsStable<T>(x: T, s: seq<T>, key: T -> int, k: int)
    requires NonIncreasing(s, key)
    ensures Filter(Insert(x, s, key), key, k) == Filter(s, key, k) + Keep(x, key, k)
    decreases |s|
  {
    if s == [] {
      FilterCons(x, [], key, k);
    } else if key(s[0]) < key(x) {
      FilterCons(x, s, key, k);
      if key(x) == k {
        FilterMissing(s, key, k);
      }
    } else {
      InsertIsStable(x, s[1..], key, k);
      FilterConsBoth(s[0], Insert(x, s[1..], key), s[1..], Keep(x, key, k), key, k);
      assert s == [s[0]] + s[1..];
    }
  }

  /** Equal keys keep their input order: the sort is stable. */
  lemma {:induction false} SortIsStable<T>(s: seq<T>, key: T -> int, k: int)
    ensures Filter(SortDesc(s, key), key, k) == Filter(s, key, k)
    decreases |s|
  {
    if s != [] {
      var p, last := s[..|s| - 1], s[|s| - 1];
      SortIsStable(p, key, k);
      InsertIsStable(last, SortDesc(p, key), key, k);
      assert SortDesc(s, key) == Insert(last, SortDesc(p, key), key);
      assert s == p + [last];
      FilterConcat(p, [last], key, k);
      FilterSingle(last, key, k);
    }
  }

  // ---------------------------------------------------------------------------
  // show_bets
  // ---------------------------------------------------------------------------

  /** A row of the bets report: `name`, `user_id`, `bet_amount`, `bet_choice`. */
  datatype BetRow = BetRow(name: string, userId: UserId, amount: int, choice: string)

  /** A row of the balances report: `name`, `user_id`, `money`. */
  datatype MoneyRow = MoneyRow(name: string, userId: UserId, money: int)

  datatype AdminReply =
    | Unavailable              // the database connection failed
    | NoBets                   // nobody has bet yet
    | BetLines(bets: seq<BetRow>)
    | MoneyLines(moneys: seq<MoneyRow>)

  function Amount(b: BetRow): int {
    b.amount
  }

  function Money(m: MoneyRow): int {
    m.money
  }

  /** A prefix keeps the order of the whole and holds part of its elements. */
  lemma PrefixKeeps<T>(r: seq<T>, s: seq<T>, key: T -> int)
    requires r <= s
    ensures multiset(r) <= multiset(s)
    ensures NonIncreasing(s, key) ==> NonIncreasing(r, key)
  {
    assert s == r + s[|r|..];
  }

  /** The loop that appends rows and `break`s at the first zero amount. */
  function UntilZero(s: seq<BetRow>): (r: seq<BetRow>)
    ensures r <= s
    ensures forall i :: 0 <= i < |r| ==> r[i].amount != 0
    ensures |r| < |s| ==> s[|r|].amount == 0
    decreases |s|
  {
    if s == [] || s[0].amount == 0 then [] else [s[0]] + UntilZero(s[1..])
  }

  /**
   * Lines 57-68 of `show_bets` on rows that carry an amount and a choice: the
   * rows from the largest amount down, up to the first zero amount; an empty
   * listing is the "nobody has bet" reply.
   */
  function BetsReport(rows: seq<BetRow>): (r: AdminReply)
    ensures r.NoBets? || r.BetLines?
    ensures r.BetLines? ==> |r.bets| > 0 && NonIncreasing(r.bets, Amount)
    ensures r.BetLines? ==> multiset(r.bets) <= multiset(rows)
    ensures r.BetLines? ==> forall i :: 0 <= i < |r.bets| ==> r.bets[i].amount != 0
  {
    var sorted := SortDesc(rows, Amount);
    var shown := UntilZero(sorted);
    PrefixKeeps(shown, sorted, Amount);
    if shown == [] then NoBets else BetLines(shown)
  }

  /** Sorting neither adds nor drops an element. */
  lemma SortKeepsMembers<T>(s: seq<T>, key: T -> int)
    ensures forall x :: x in SortDesc(s, key) <==> x in s
  {
    var r := SortDesc(s, key);
    forall x ensures x in r <==> x in s {
      assert x in r <==> x in multiset(r);
      assert x in s <==> x in multiset(s);
    }
  }

  predicate NoNegative(rows: seq<BetRow>) {
    forall i :: 0 <= i < |rows| ==> rows[i].amount >= 0
  }

  lemma SortedNoNegative(rows: seq<BetRow>)
    requires NoNegative(rows)
    ensures NoNegative(SortDesc(rows, Amount))
  {
    var sorted := SortDesc(rows, Amount);
    SortKeepsMembers(rows, Amount);
    forall i | 0 <= i < |sorted| ensures sorted[i].amount >= 0 {
      assert sorted[i] in rows;
    }
  }

  /** In a non-increasing list of non-negative amounts, everything after the listed rows is zero. */
  lemma UntilZeroLeavesZeros(s: seq<BetRow>, k: int)
    requires NonIncreasing(s, Amount) && NoNegative(s) && k != 0
    ensures Filter(s[|UntilZero(s)|..], Amount, k) == []
  {
    var n := |UntilZero(s)|;
    var tail := s[n..];
    forall i | 0 <= i < |tail| ensures Amount(tail[i]) != k {
      assert tail[i] == s[n + i];
      assert Amount(s[n]) >= Amount(s[n + i]);
    }
    FilterMissing(tail, Amount, k);
  }

  /** The listed rows with amount `k != 0` are all the rows with amount `k`, in query order. */
  lemma ListedIsStable(rows: seq<BetRow>, k: int)
    requires NoNegative(rows) && k != 0
    ensures Filter(UntilZero(SortDesc(rows, Amount)), Amount, k) == Filter(rows, Amount, k)
  {
    var sorted := SortDesc(rows, Amount);
    var shown := UntilZero(sorted);
    assert sorted == shown + sorted[|shown|..];
    SortedNoNegative(rows);
    UntilZeroLeavesZeros(sorted, k);
    SortIsStable(rows, Amount, k);
    FilterConcat(shown, sorted[|shown|..], Amount, k);
  }

  /** Nothing is listed exactly when every amount is zero. */
  lemma NothingListedIffAllZero(rows: seq<BetRow>)
    requires NoNegative(rows)
    ensures UntilZero(SortDesc(rows, Amount)) == [] <==> forall i :: 0 <= i < |rows| ==> rows[i].amount == 0
  {
    var sorted := SortDesc(rows, Amount);
    SortKeepsMembers(rows, Amount);
    if UntilZero(sorted) == [] {
      forall i | 0 <= i < |rows| ensures rows[i].amount == 0 {
        assert rows[i] in sorted;
        var j :| 0 <= j < |sorted| && sorted[j] == rows[i];
        assert Amount(sorted[0]) >= Amount(sorted[j]);
        assert sorted[0] in rows;
      }
    } else {
      assert sorted[0].amount != 0 && sorted[0] in rows;
    }
  }

  /**
   * With non-negative amounts (stakes are never negative) the report lists
   * exactly the rows with a non-zero amount: for every amount `k != 0` the
   * rows with amount `k` appear, in query order; and it is the "nobody has
   * bet" reply exactly when every amount is zero.
   */
  lemma BetsReportListsEveryStake(rows: seq<BetRow>, k: int)
    requires NoNegative(rows) && k != 0
    ensures BetsReport(rows).NoBets? <==> forall i :: 0 <= i < |rows| ==> rows[i].amount == 0
    ensures BetsReport(rows).BetLines? ==> Filter(BetsReport(rows).bets, Amount, k) == Filter(rows, Amount, k)
  {
    NothingListedIffAllZero(rows);
    ListedIsStable(rows, k);
  }

  /** The database error `show_bets` runs into. */
  datatype ReportError = MissingKey(key: string)

  lemma SomeKey<K, V>(m: map<K, V>) returns (k: K)
    requires |m| > 0
    ensures k in m
  {
    var ks := m.Keys;
    assert |ks| > 0;
    k :| k in ks;
  }

  lemma SomeBettor(db: Db)
    requires |Bettors(db)| > 0
    ensures exists id :: id in db && BetList(db[id]) != []
  {
    var id := SomeKey(Bettors(db));
    assert id in db && BetList(db[id]) == db[id].bets.value;
  }

  /**
   * `show_bets` as written: the query selects `user_id`, `name` and `bet` only,
   * so the sort key `x['bet_amount']` raises `KeyError` on the first row. The
   * sort never calls the key on an empty result, which gives the
   * "nobody has bet" reply.
   */
  function ShowBets(db: Db, connected: bool): (r: Result<AdminReply, ReportError>)
    ensures !connected ==> r == Success(Unavailable)
    ensures connected ==> (r.Failure? <==> exists id :: id in db && BetList(db[id]) != [])
    ensures connected && r.Success? ==> r.value == NoBets
  {
    if !connected then Success(Unavailable)
    else if |Bettors(db)| == 0 then Success(NoBets)
    else
      SomeBettor(db);
      Failure(MissingKey("bet_amount"))
  }

  /** So once anyone has placed a bet the report fails, until the bets are cleared. */
  lemma ShowBetsAfterBetting(db: Db, id: UserId, bet: Bet)
    requires id in db
    ensures ShowBets(PlaceBet(db, id, bet).value, true) == Failure(MissingKey("bet_amount"))
    ensures ShowBets(DeleteBets(PlaceBet(db, id, bet).value), true) == Success(NoBets)
  {
    PlacedBetMakesBettor(db, id, bet);
    NoBettorsAfterDeleteBets(PlaceBet(db, id, bet).value);
  }

  // ---------------------------------------------------------------------------
  // show_moneys
  // ---------------------------------------------------------------------------

  /** `SELECT user_id, name, money FROM users` has no `ORDER BY`: every row once, in some order. */
  ghost predicate IsQueryOrder(db: Db, order: seq<UserId>) {
    (forall i :: 0 <= i < |order| ==> order[i] in db) &&
    (forall id :: id in db ==> id in order) &&
    (forall i, j :: 0 <= i < j < |order| ==> order[i] != order[j])
  }

  lemma {:induction false} DistinctCount(order: seq<UserId>)
    requires forall i, j :: 0 <= i < j < |order| ==> order[i] != order[j]
    ensures |(set id | id in order)| == |order|
    decreases |order|
  {
    if order != [] {
      var rest := order[1..];
      DistinctCount(rest);
      assert (set id | id in order) == {order[0]} + (set id | id in rest) by {
        assert order == [order[0]] + rest;
      }
      assert order[0] !in (set id | id in rest);
    }
  }

  lemma QueryOrderCountsRows(db: Db, order: seq<UserId>)
    requires IsQueryOrder(db, order)
    ensures |order| == |db|
  {
    DistinctCount(order);
    var ids := set id | id in order;
    forall id ensures id in db.Keys <==> id in ids {
      if id in order {
        var i :| 0 <= i < |order| && order[i] == id;
      }
    }
    assert db.Keys == ids;
  }

  function MoneyRowOf(db: Db, id: UserId): MoneyRow
    requires id in db
  {
    MoneyRow(db[id].name, id, db[id].money)
  }

  /** The query's rows, in the query's order. */
  function MoneyRows(db: Db, order: seq<UserId>): (r: seq<MoneyRow>)
    requires forall i :: 0 <= i < |order| ==> order[i] in db
    ensures |r| == |order|
    ensures forall i :: 0 <= i < |order| ==> r[i] == MoneyRowOf(db, order[i])
    decreases |order|
  {
    if order == [] then [] else [MoneyRowOf(db, order[0])] + MoneyRows(db, order[1..])
  }

  /** `show_moneys`: every user's balance, from the largest down. */
  function ShowMoneys(db: Db, order: seq<UserId>, connected: bool): (r: AdminReply)
    requires IsQueryOrder(db, order)
    ensures !connected ==> r == Unavailable
    ensures connected ==> r.MoneyLines? && |r.moneys| == |db| && NonIncreasing(r.moneys, Money)
    ensures connected ==> forall id :: id in db ==> MoneyRowOf(db, id) in r.moneys
    ensures connected ==> forall x :: x in r.moneys ==> x.userId in db && x == MoneyRowOf(db, x.userId)
  {
    if !connected then Unavailable
    else
      var rows := MoneyRows(db, order);
      QueryOrderCountsRows(db, order);
      SortKeepsMembers(rows, Money);
      assert |SortDesc(rows, Money)| == |rows| by {
        assert |multiset(SortDesc(rows, Money))| == |multiset(rows)|;
      }
      MoneyRowsHoldEveryUser(db, order);
      MoneyLines(SortDesc(rows, Money))
  }

  lemma MoneyRowsHoldEveryUser(db: Db, order: seq<UserId>)
    requires IsQueryOrder(db, order)
    ensures forall id :: id in db ==> MoneyRowOf(db, id) in MoneyRows(db, order)
    ensures forall x :: x in MoneyRows(db, order) ==> x.userId in db && x == MoneyRowOf(db, x.userId)
  {
    var rows := MoneyRows(db, order);
    forall id | id in db ensures MoneyRowOf(db, id) in rows {
      var i :| 0 <= i < |order| && order[i] == id;
      assert rows[i] == MoneyRowOf(db, id);
    }
  }

  /** Users with equal balances are listed in the query's order. */
  lemma ShowMoneysKeepsQueryOrder(db: Db, order: seq<UserId>, k: int)
    requires IsQueryOrder(db, order)
    ensures Filter(ShowMoneys(db, order, true).moneys, Money, k) == Filter(MoneyRows(db, order), Money, k)
  {
    SortIsStable(MoneyRows(db, order), Money, k);
  }
}
