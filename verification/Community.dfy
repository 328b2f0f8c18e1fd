/** StatService.community: the reward each miner earns on the smaller of its two subtree totals, paid in
    platform coin. */
module Community {
  import opened Ledgers
  import opened Levels
  import opened Referral
  import opened Rounding
  import opened Settlement
  import opened Sums

  /** Settings, the totals of the settlement, and who has mined. The price is that of a coin in CNY. */
  datatype Setup = Setup(platCoin: string, freezeRate: real, price: Option<real>, levels: seq<Level>,
                         redis: map<int, Totals>, miners: set<int>)
  {
    predicate InRange()
    {
      0.0 <= freezeRate <= 1.0 && price.Some? && 0.0 < price.value
    }
  }

  /** The ledger, the earnings, and the day's community rewards in CNY. */
  datatype Payout = Payout(book: Book, earnings: map<int, Earnings>, paid: map<int, real>, failed: bool)

  function Smaller(t: Totals): int
  {
    if t.leftMoneyAll > t.rightMoneyAll then t.rightMoneyAll else t.leftMoneyAll
  }

  /** What the rule grants to the user of a row, in CNY. */
  function Grant(m: Setup, row: StatRow): (grant: real)
    ensures 0.0 <= grant
  {
    if row.userId !in m.redis || row.userId !in m.miners then 0.0 else
      match LevelOf(m.levels, row.moneyAll)
      case None => 0.0
      case Some(level) =>
        var reward := Times(Smaller(m.redis[row.userId]) as real, level.rate);
        if level.rate <= 0.0 || reward <= 0.0 then 0.0 else reward
  }

  /** The same in whole units of platform coin. */
  function CoinsOf(m: Setup, grant: real): int
    requires m.InRange()
  {
    HalfUp(grant / m.price.value)
  }

  /** The mapper's increment of the given rewards: nothing without a row. */
  function Given(earnings: map<int, Earnings>, user: int, coins: int): map<int, Earnings>
  {
    if user !in earnings then earnings
    else earnings[user := earnings[user].(give := earnings[user].give + coins as real)]
  }

  function PaidTo(paid: map<int, real>): int -> real
  {
    u => if u in paid then paid[u] else 0.0
  }

  /** A reward of `grant` CNY paid as `coins`: wallet, earnings and hash. */
  function Paid(m: Setup, s: Payout, user: int, grant: real, coins: int): Payout
  {
    match Post(s.book, Call(Key(user, m.platCoin), Delta(coins as real, 0.0, 0.0)))
    case None => s.(failed := true)
    case Some(book) =>
      Payout(book, Given(s.earnings, user, coins), s.paid[user := PaidTo(s.paid)(user) + grant], s.failed)
  }

  function PayRow(m: Setup, s: Payout, row: StatRow): Payout
    requires m.InRange()
  {
    var grant := Grant(m, row);
    if grant <= 0.0 then s else Paid(m, s, row.userId, grant, CoinsOf(m, grant))
  }

  /** A failed payment is an exception: it ends the pass. */
  function PayRows(m: Setup, s: Payout, rows: seq<StatRow>): Payout
    requires m.InRange()
  {
    if rows == [] then s else
      var before := PayRows(m, s, rows[..|rows| - 1]);
      if before.failed then before else PayRow(m, before, rows[|rows| - 1])
  }

  // ---- who gets what

  /** Before a pass: the day's hash is empty, and no balance is negative. */
  ghost predicate Fresh(s: Payout)
  {
    && !s.failed && s.paid == map[]
    && forall k :: k in s.book.wallets ==> NonNegative(s.book.wallets[k])
  }

  predicate OneRowEach(rows: seq<StatRow>)
  {
    forall i, j :: 0 <= i < j < |rows| ==> rows[i].userId != rows[j].userId
  }

  predicate Listed(rows: seq<StatRow>, user: int)
  {
    exists i :: 0 <= i < |rows| && rows[i].userId == user
  }

  /** What a pass over `rows` made of `s`. */
  ghost predicate PaidOut(m: Setup, s: Payout, after: Payout, rows: seq<StatRow>)
    requires m.InRange()
  {
    && !after.failed
    && (forall k :: k in after.book.wallets ==> NonNegative(after.book.wallets[k]))
    && (forall i :: 0 <= i < |rows| ==> RowPaid(m, s, after, rows[i]))
    && (forall u :: !Listed(rows, u) ==> Untouched(s, after, u))
    && after.earnings.Keys == s.earnings.Keys
    && (forall k: Key :: k.coin != m.platCoin ==> WalletOf(after.book, k) == WalletOf(s.book, k))
  }

  /** A listed user is paid its grant once: in CNY in the day's hash, in coin in the wallet and the earnings. */
  ghost predicate RowPaid(m: Setup, s: Payout, after: Payout, row: StatRow)
    requires m.InRange()
  {
    var coins, k := CoinsOf(m, Grant(m, row)), Key(row.userId, m.platCoin);
    && PaidTo(after.paid)(row.userId) == Grant(m, row)
    && (row.userId in after.paid ==> 0.0 < Grant(m, row))
    && WalletOf(after.book, k) == WalletOf(s.book, k).(available := WalletOf(s.book, k).available + coins)
    && (row.userId in s.earnings && row.userId in after.earnings ==>
          after.earnings[row.userId] == s.earnings[row.userId].(give := s.earnings[row.userId].give + coins as real))
  }

  ghost predicate Untouched(s: Payout, after: Payout, u: int)
  {
    && u !in after.paid
    && (forall k: Key :: k.user == u ==> WalletOf(after.book, k) == WalletOf(s.book, k))
    && (u in s.earnings && u in after.earnings ==> after.earnings[u] == s.earnings[u])
  }

  lemma NoGrantNoCoins(m: Setup)
    requires m.InRange()
    ensures CoinsOf(m, 0.0) == 0
  {
    assert 0.0 / m.price.value == 0.0;
    HalfUpWhole(0);
  }

  lemma CoinsNotNegative(m: Setup, grant: real)
    requires m.InRange() && 0.0 <= grant
    ensures 0 <= CoinsOf(m, grant)
  {
    HalfUpSign(grant / m.price.value);
  }

  /** One row, for a user who has not been paid yet. */
  lemma PayRowPays(m: Setup, s: Payout, row: StatRow)
    requires m.InRange() && !s.failed && row.userId !in s.paid
    requires forall k :: k in s.book.wallets ==> NonNegative(s.book.wallets[k])
    ensures var after := PayRow(m, s, row);
            && !after.failed && RowPaid(m, s, after, row)
            && after.earnings.Keys == s.earnings.Keys
            && (forall k :: k in after.book.wallets ==> NonNegative(after.book.wallets[k]))
            && (forall k :: k != Key(row.userId, m.platCoin) ==> WalletOf(after.book, k) == WalletOf(s.book, k))
            && (forall u :: u in s.earnings && u != row.userId ==> after.earnings[u] == s.earnings[u])
            && after.paid - {row.userId} == s.paid - {row.userId}
  {
    NoGrantNoCoins(m);
    CoinsNotNegative(m, Grant(m, row));
    HalfUpWhole(CoinsOf(m, Grant(m, row)));
    HalfUpWhole(0);
  }

  /** The pass never breaks off; every listed user is paid its grant, and nobody else anything. */
  lemma {:induction false} EverybodyPaid(m: Setup, s: Payout, rows: seq<StatRow>)
    requires m.InRange() && Fresh(s) && OneRowEach(rows)
    ensures PaidOut(m, s, PayRows(m, s, rows), rows)
  {
    if rows != [] {
      var n := |rows| - 1;
      EverybodyPaid(m, s, rows[..n]);
      PaidStep(m, s, PayRows(m, s, rows[..n]), rows);
    }
  }

  lemma PaidStep(m: Setup, s: Payout, before: Payout, rows: seq<StatRow>)
    requires m.InRange() && OneRowEach(rows) && rows != []
    requires PaidOut(m, s, before, rows[..|rows| - 1])
    ensures PaidOut(m, s, PayRow(m, before, rows[|rows| - 1]), rows)
  {
    var n := |rows| - 1;
    var after, last := PayRow(m, before, rows[n]), rows[n];
    assert !Listed(rows[..n], last.userId);
    assert Untouched(s, before, last.userId);
    PayRowPays(m, before, last);
    forall i | 0 <= i < |rows| ensures RowPaid(m, s, after, rows[i]) {
      if i < n {
        assert rows[..n][i] == rows[i] && RowPaid(m, s, before, rows[i]);
        SamePaid(before, after, last.userId, rows[i].userId);
      }
    }
    forall u | !Listed(rows, u) ensures Untouched(s, after, u) {
      assert last.userId != u;
      assert !Listed(rows[..n], u) by {
        assert forall i :: 0 <= i < n ==> rows[..n][i] == rows[i];
      }
      assert Untouched(s, before, u);
      SamePaid(before, after, last.userId, u);
    }
  }

  lemma SamePaid(before: Payout, after: Payout, paidNow: int, u: int)
    requires after.paid - {paidNow} == before.paid - {paidNow} && u != paidNow
    ensures (u in after.paid) == (u in before.paid) && PaidTo(after.paid)(u) == PaidTo(before.paid)(u)
  {
    assert u in after.paid ==> u in after.paid - {paidNow};
    assert u in before.paid ==> u in before.paid - {paidNow};
    if u in after.paid {
      assert (after.paid - {paidNow})[u] == after.paid[u];
      assert (before.paid - {paidNow})[u] == before.paid[u];
    }
  }

  // ---- how much that is at most

  ghost function BothTotals(redis: map<int, Totals>): int -> int
  {
    u => if u in redis then redis[u].leftMoneyAll + redis[u].rightMoneyAll else 0
  }

  ghost function Only(users: set<int>, f: int -> int): int -> int
  {
    u => if u in users then f(u) else 0
  }

  /** One grant is at most half the largest rate times the user's two totals. */
  lemma GrantIsBounded(m: Setup, row: StatRow, maxRate: real)
    requires 0.0 <= maxRate && forall level :: level in m.levels ==> level.rate <= maxRate
    requires row.userId in m.redis
    requires 0 <= m.redis[row.userId].leftMoneyAll && 0 <= m.redis[row.userId].rightMoneyAll
    ensures 2.0 * Grant(m, row) <= Times(BothTotals(m.redis)(row.userId) as real, maxRate)
  {
    var t := m.redis[row.userId];
    var both := (t.leftMoneyAll + t.rightMoneyAll) as real;
    TimesSign(both, maxRate);
    if Grant(m, row) > 0.0 {
      var rate := LevelOf(m.levels, row.moneyAll).value.rate;
      var smaller := Smaller(t) as real;
      TimesMonotone(smaller + smaller, both, rate);
      assert Times(smaller + smaller, rate) == 2.0 * Times(smaller, rate);
      TimesMonotone(rate, maxRate, both);
      assert Times(rate, both) == Times(both, rate) && Times(maxRate, both) == Times(both, maxRate);
    }
  }

  lemma TimesSum(a: int, b: int, rate: real)
    ensures Times((a + b) as real, rate) == Times(a as real, rate) + Times(b as real, rate)
  {
    TimesPlus(a as real, b as real, rate);
  }

  lemma {:induction false} BoundedTogether(s: set<int>, f: int -> real, g: int -> int, rate: real)
    requires forall u :: u in s ==> 2.0 * f(u) <= Times(g(u) as real, rate)
    ensures 2.0 * RealSum(s, f) <= Times(SetSum(s, g) as real, rate)
    decreases |s|
  {
    if s != {} {
      var u := AnyOf(s);
      RealSumSplit(s, u, f);
      SetSumSplit(s, u, g);
      BoundedTogether(s - {u}, f, g, rate);
      TimesSum(g(u), SetSum(s - {u}, g), rate);
    }
  }

  lemma {:induction false} SetSumNonNegative(s: set<int>, f: int -> int)
    requires forall x :: x in s ==> 0 <= f(x)
    ensures 0 <= SetSum(s, f)
    decreases |s|
  {
    if s != {} {
      var x := AnyOf(s);
      SetSumSplit(s, x, f);
      SetSumNonNegative(s - {x}, f);
    }
  }

  /** Mined amounts that are not negative settle to totals that are not. */
  lemma TotalsNotNegative(stat: RewardStat)
    requires stat.Complete() && forall u :: u in stat.mined ==> 0 <= stat.mined[u]
    ensures forall u :: u in stat.redis ==> 0 <= stat.redis[u].leftMoneyAll && 0 <= stat.redis[u].rightMoneyAll
  {
    forall u | u in stat.redis
      ensures 0 <= stat.redis[u].leftMoneyAll && 0 <= stat.redis[u].rightMoneyAll
    {
      SetSumNonNegative(Below(stat.users, u, Left), Weight(stat.mined, Money));
      SetSumNonNegative(Below(stat.users, u, Right), Weight(stat.mined, Money));
      assert Cell(stat.redis[u], Left, Money) == Total(stat.users, stat.mined, u, Left, Money);
      assert Cell(stat.redis[u], Right, Money) == Total(stat.users, stat.mined, u, Right, Money);
    }
  }

  /** The totals of all users together hold each mined amount once per user above its miner. */
  lemma AllTotals(stat: RewardStat)
    requires stat.Complete() && EdgesDefined(stat.users)
    ensures SetSum(stat.users.Keys, BothTotals(stat.redis))
         == SetSum(stat.users.Keys, DepthWeighted(stat.users, stat.mined, Money))
  {
    var both := BothTotals(stat.redis);
    forall u | u in stat.users
      ensures both(u) == Total(stat.users, stat.mined, u, Left, Money) + Total(stat.users, stat.mined, u, Right, Money)
    {
      assert Cell(stat.redis[u], Left, Money) == Total(stat.users, stat.mined, u, Left, Money);
      assert Cell(stat.redis[u], Right, Money) == Total(stat.users, stat.mined, u, Right, Money);
    }
    GrandTotal(stat.users, stat.mined, Money, both);
  }

  /** All that the community reward pays is, in CNY, at most half the largest rate times each mined
      amount taken once per user above its miner. */
  lemma CommunityIsBounded(stat: RewardStat, m: Setup, s: Payout, rows: seq<StatRow>, maxRate: real)
    requires stat.Complete() && EdgesDefined(stat.users) && m.redis == stat.redis
    requires forall u :: u in stat.mined ==> 0 <= stat.mined[u]
    requires 0.0 <= maxRate && forall level :: level in m.levels ==> level.rate <= maxRate
    requires m.InRange() && Fresh(s) && OneRowEach(rows)
    ensures var paid := PayRows(m, s, rows).paid;
            2.0 * RealSum(paid.Keys, PaidTo(paid))
            <= Times(SetSum(stat.users.Keys, DepthWeighted(stat.users, stat.mined, Money)) as real, maxRate)
  {
    var after := PayRows(m, s, rows);
    var both := BothTotals(stat.redis);
    EverybodyPaid(m, s, rows);
    TotalsNotNegative(stat);
    forall u | u in after.paid.Keys
      ensures u in stat.users && 2.0 * PaidTo(after.paid)(u) <= Times(Only(after.paid.Keys, both)(u) as real, maxRate)
    {
      assert Listed(rows, u);
      var i :| 0 <= i < |rows| && rows[i].userId == u;
      assert RowPaid(m, s, after, rows[i]);
      GrantIsBounded(m, rows[i], maxRate);
    }
    BoundedTogether(after.paid.Keys, PaidTo(after.paid), Only(after.paid.Keys, both), maxRate);
    SetSumSupport(stat.users.Keys, after.paid.Keys, Only(after.paid.Keys, both));
    forall u | u in stat.users.Keys ensures Only(after.paid.Keys, both)(u) <= both(u) {
      assert u in stat.redis;
    }
    SetSumAtMost(stat.users.Keys, Only(after.paid.Keys, both), both);
    TimesMonotone(SetSum(after.paid.Keys, Only(after.paid.Keys, both)) as real,
        SetSum(stat.users.Keys, both) as real, maxRate);
    AllTotals(stat);
  }

  // ---- the same in coin

  /** What is granted, read off the rows: the level's rate times the smaller of the two totals, to a settled
      miner, if it is positive. */
  lemma GrantExactly(m: Setup, row: StatRow)
    ensures Grant(m, row) ==
            if row.userId in m.redis && row.userId in m.miners && m.levels != [] then
              var rate, t := LevelOf(m.levels, row.moneyAll).value.rate, m.redis[row.userId];
              var smaller := if t.leftMoneyAll <= t.rightMoneyAll then t.leftMoneyAll else t.rightMoneyAll;
              if 0.0 < rate && 0 < smaller then smaller as real * rate else 0.0
            else 0.0
  {
    if row.userId in m.redis && m.levels != [] {
      var rate, t := LevelOf(m.levels, row.moneyAll).value.rate, m.redis[row.userId];
      if 0.0 < rate {
        SignOfProduct(Smaller(t) as real, rate);
      }
    }
  }

  lemma SignOfProduct(a: real, rate: real)
    requires 0.0 < rate
    ensures Times(a, rate) == a * rate
    ensures 0.0 < Times(a, rate) <==> 0.0 < a
  {
    if 0.0 < a {
      assert 0.0 < a * rate;
    } else {
      TimesSign(-a, rate);
      assert Times(-a, rate) == -Times(a, rate);
    }
  }

  /** So many coins are worth an amount at a price, up to half a unit of coin. */
  predicate Worth(coins: int, price: real, amount: real)
  {
    -0.5 * price <= Times(coins as real, price) - amount <= 0.5 * price
  }

  /** The coins paid are worth the reward at the price. */
  lemma CoinsAtPrice(m: Setup, grant: real)
    requires m.InRange()
    ensures Worth(CoinsOf(m, grant), m.price.value, grant)
  {
    var price := m.price.value;
    HalfUpError(grant / price);
    OverTimes(grant, price);
    TimesClose(CoinsOf(m, grant) as real, grant / price, 0.5, price);
    TimesIsProduct(0.5, price);
  }

  /** By how much a pass raised a user's platform coin. */
  function Raised(m: Setup, s: Payout, after: Payout): int -> int
  {
    u => WalletOf(after.book, Key(u, m.platCoin)).available - WalletOf(s.book, Key(u, m.platCoin)).available
  }

  lemma PaidIsWorth(m: Setup, s: Payout, after: Payout, row: StatRow)
    requires m.InRange() && RowPaid(m, s, after, row)
    ensures Worth(Raised(m, s, after)(row.userId), m.price.value, Grant(m, row))
    ensures Grant(m, row) == 0.0 ==> Raised(m, s, after)(row.userId) == 0
  {
    CoinsAtPrice(m, Grant(m, row));
    NoGrantNoCoins(m);
  }

  /** After a pass every listed user's wallet has risen by its reward at the price, up to half a unit. */
  lemma WalletsRise(m: Setup, s: Payout, rows: seq<StatRow>, i: nat)
    requires m.InRange() && Fresh(s) && OneRowEach(rows) && i < |rows|
    ensures Worth(Raised(m, s, PayRows(m, s, rows))(rows[i].userId), m.price.value, Grant(m, rows[i]))
  {
    EverybodyPaid(m, s, rows);
    PaidIsWorth(m, s, PayRows(m, s, rows), rows[i]);
  }

  /** What a user's coins are worth. */
  function WorthOf(rise: int -> int, price: real): int -> real
  {
    u => Times(rise(u) as real, price)
  }

  lemma {:induction false} WorthTogether(users: set<int>, worth: int -> real, cny: int -> real, price: real)
    requires forall u :: u in users ==> 2.0 * worth(u) <= 2.0 * cny(u) + price
    ensures 2.0 * RealSum(users, worth) <= 2.0 * RealSum(users, cny) + Times(|users| as real, price)
    decreases |users|
  {
    if users != {} {
      var u := AnyOf(users);
      RealSumSplit(users, u, worth);
      RealSumSplit(users, u, cny);
      WorthTogether(users - {u}, worth, cny, price);
      assert |users| == 1 + |users - {u}|;
      OneMoreTime(|users - {u}|, price);
    }
  }

  lemma OneMoreTime(n: nat, x: real)
    ensures Times((1 + n) as real, x) == x + Times(n as real, x)
  {
    TimesSum(1, n, x);
  }

  ghost predicate AllWorth(users: set<int>, rise: int -> int, cny: int -> real, price: real)
  {
    forall u :: u in users ==> Worth(rise(u), price, cny(u))
  }

  /** What is worth an amount each is worth the amounts together. */
  lemma WorthInAll(users: set<int>, rise: int -> int, cny: int -> real, price: real)
    requires AllWorth(users, rise, cny, price)
    ensures 2.0 * RealSum(users, WorthOf(rise, price)) <= 2.0 * RealSum(users, cny) + Times(|users| as real, price)
  {
    WorthTogether(users, WorthOf(rise, price), cny, price);
  }

  lemma EachWorth(m: Setup, s: Payout, rows: seq<StatRow>)
    requires m.InRange() && Fresh(s) && OneRowEach(rows)
    ensures var after := PayRows(m, s, rows);
            && AllWorth(after.paid.Keys, Raised(m, s, after), PaidTo(after.paid), m.price.value)
            && forall u :: u !in after.paid ==> Raised(m, s, after)(u) == 0
  {
    var after := PayRows(m, s, rows);
    EverybodyPaid(m, s, rows);
    forall u
      ensures u in after.paid ==> Worth(Raised(m, s, after)(u), m.price.value, PaidTo(after.paid)(u))
      ensures u !in after.paid ==> Raised(m, s, after)(u) == 0
    {
      if Listed(rows, u) {
        var i :| 0 <= i < |rows| && rows[i].userId == u;
        PaidIsWorth(m, s, after, rows[i]);
        assert PaidTo(after.paid)(u) == Grant(m, rows[i]);
      } else {
        assert Untouched(s, after, u);
      }
    }
  }

  /** All coins of a pass together are worth at most the bound in CNY, up to half a unit of coin for each
      user who was paid; nobody else's wallet rises. */
  lemma CoinsAreBounded(stat: RewardStat, m: Setup, s: Payout, rows: seq<StatRow>, maxRate: real)
    requires stat.Complete() && EdgesDefined(stat.users) && m.redis == stat.redis
    requires forall u :: u in stat.mined ==> 0 <= stat.mined[u]
    requires 0.0 <= maxRate && forall level :: level in m.levels ==> level.rate <= maxRate
    requires m.InRange() && Fresh(s) && OneRowEach(rows)
    ensures var after, price := PayRows(m, s, rows), m.price.value;
            var users, rise := after.paid.Keys, Raised(m, s, after);
            && 2.0 * RealSum(users, WorthOf(rise, price))
               <= Times(SetSum(stat.users.Keys, DepthWeighted(stat.users, stat.mined, Money)) as real, maxRate)
                  + Times(|users| as real, price)
            && forall u :: u !in users ==> rise(u) == 0
  {
    var after := PayRows(m, s, rows);
    CommunityIsBounded(stat, m, s, rows, maxRate);
    EachWorth(m, s, rows);
    WorthInAll(after.paid.Keys, Raised(m, s, after), PaidTo(after.paid), m.price.value);
  }

  // ---- the pass as it is written

  class CommunityService {
    const ledger: Ledger
    var earnings: map<int, Earnings>
    var paid: map<int, real>

    constructor (ledger: Ledger, earnings: map<int, Earnings>)
      ensures this.ledger == ledger && State(false) == Payout(ledger.Books(), earnings, map[], false)
    {
      this.ledger, this.earnings, paid := ledger, earnings, map[];
    }

    ghost function State(failed: bool): Payout
      reads this, ledger
    {
      Payout(ledger.Books(), earnings, paid, failed)
    }

    /** community. It does nothing under a configuration that is out of range. */
    method PayCommunity(m: Setup, rows: seq<StatRow>) returns (ok: bool)
      modifies this, ledger
      ensures m.InRange() ==> State(!ok) == PayRows(m, old(State(false)), rows)
      ensures !m.InRange() ==> State(!ok) == old(State(false))
    {
      if m.freezeRate < 0.0 || m.freezeRate > 1.0 || m.price.None? || m.price.value <= 0.0 {
        return true;
      }
      assert rows[..0] == [];
      for i := 0 to |rows|
        invariant State(false) == PayRows(m, old(State(false)), rows[..i])
      {
        assert rows[..i + 1][..i] == rows[..i];
        ok := PayUser(m, rows[i]);
        if !ok {
          BrokenOff(m, old(State(false)), rows, i + 1);
          return false;
        }
      }
      assert rows[..|rows|] == rows;
      ok := true;
    }

    /** One round of the loop. */
    method PayUser(m: Setup, row: StatRow) returns (ok: bool)
      requires m.InRange()
      modifies this, ledger
      ensures State(!ok) == PayRow(m, old(State(false)), row)
    {
      var reward := RewardOf(m, row);
      if reward <= 0.0 {
        return true;
      }
      ok := PayOut(m, row.userId, reward, CoinsOf(m, reward));
    }

    method PayOut(m: Setup, user: int, reward: real, coins: int) returns (ok: bool)
      modifies this, ledger
      ensures State(!ok) == Paid(m, old(State(false)), user, reward, coins)
    {
      ok := ledger.ChangeUserCoin(Key(user, m.platCoin), Delta(coins as real, 0.0, 0.0));
      if ok {
        earnings := Given(earnings, user, coins);
        paid := paid[user := PaidTo(paid)(user) + reward];
      }
    }

    /** Its guards: what a user is due, and zero where the source goes on to the next user. */
    method RewardOf(m: Setup, row: StatRow) returns (reward: real)
      ensures reward == Grant(m, row)
    {
      if row.userId !in m.redis || row.userId !in m.miners {
        return 0.0;
      }
      var user := m.redis[row.userId];
      var level := GetUserLevel(m.levels, row.moneyAll);
      if level.None? || level.value.rate <= 0.0 {
        return 0.0;
      }
      var minDepart := if user.leftMoneyAll > user.rightMoneyAll then user.rightMoneyAll else user.leftMoneyAll;
      reward := Times(minDepart as real, level.value.rate);
      if reward <= 0.0 {
        return 0.0;
      }
    }
  }

  lemma {:induction false} BrokenOff(m: Setup, s: Payout, rows: seq<StatRow>, n: nat)
    requires m.InRange() && n <= |rows| && PayRows(m, s, rows[..n]).failed
    ensures PayRows(m, s, rows) == PayRows(m, s, rows[..n])
    decreases |rows|
  {
    if n < |rows| {
      assert rows[..|rows| - 1][..n] == rows[..n];
      BrokenOff(m, s, rows[..|rows| - 1], n);
    } else {
      assert rows[..n] == rows;
    }
  }
}
