/** StatService.minering: the mining reward of every user and the share for who invited them, each
    split into a part that is given and a part that stays frozen. Amounts are in units of 1e-8. */
module Mining {
  import opened Ledgers
  import opened Levels
  import opened Rounding
  import opened Sums

  /** What does not change during a pass. `double` is the conversion of a decimal to a double and back,
      about which nothing is assumed. */
  datatype Setup = Setup(platCoin: string, consumeCoin: string, minerRate: real, freezeRate: real, referrerRate: real,
                         price: real, levels: seq<Level>, invites: map<int, Option<int>>, redis: map<int, real>,
                         double: real -> real)

  /** An update of somebody's earnings by a mined or shared amount. */
  datatype Granted = Granted(user: int, amount: real)

  datatype MineState = MineState(book: Book, earnings: map<int, Earnings>, isMiner: set<int>,
                                 mined: map<int, real>, referred: map<int, real>, log: seq<Granted>, failed: bool)

  /** The coin that a miner must hold. */
  const ENG11 := "ENG11"

  /** 0.01 coin: smaller amounts are given whole. */
  const SMALL := 1000000.0

  /** Division by the price, to nine places. */
  function AtPrice(money: real, price: real): real
  {
    if price == 0.0 then 0.0 else HalfUp(money / price * 10.0) as real / 10.0
  }

  function RewardOf(m: Setup, amountAll: real): real
  {
    m.double(if m.double(amountAll) < SMALL then amountAll else Times(amountAll, 1.0 - m.freezeRate))
  }

  function Plus(hash: map<int, real>, key: int, amount: real): map<int, real>
  {
    hash[key := (if key in hash then hash[key] else 0.0) + amount]
  }

  /** One reward: what is due together with what was frozen is split anew. */
  function Grant(m: Setup, s: MineState, user: int, amount: real, own: bool): MineState
    requires user in s.earnings
  {
    var e := s.earnings[user];
    var reward := RewardOf(m, amount + e.freeze);
    match Post(s.book, Call(Key(user, m.platCoin), Delta(if own then m.double(reward) else reward, 0.0, 0.0)))
    case None => s.(failed := true)
    case Some(book) =>
      s.(book := book,
         earnings := s.earnings[user := SplitAnew(e, amount, reward)],
         log := s.log + [Granted(user, amount)])
  }

  predicate IsMiner(m: Setup, s: MineState, user: int)
    requires user in m.redis
  {
    user in s.isMiner
    || (match LevelOf(m.levels, m.redis[user])
        case None => false
        case Some(level) =>
          level.id >= 2 && Key(user, ENG11) in s.book.wallets
          && m.double(s.book.wallets[Key(user, ENG11)].available as real) >= m.double(level.consume))
  }

  /** The share of who invited the miner. */
  function Share(m: Setup, s: MineState, user: int, amount: real, cny: real): MineState
  {
    if user !in m.invites || m.invites[user].None? || m.double(amount) <= 0.0 then s else
      var invite := m.invites[user].value;
      if invite !in s.earnings || invite !in m.redis || !IsMiner(m, s, invite)
         || m.double(amount + s.earnings[invite].freeze) <= 0.0 then s
      else
        var after := Grant(m, s, invite, amount, false);
        if after.failed then after else after.(referred := Plus(after.referred, invite, m.double(cny)))
  }

  /** The mined amount: the consumption must be paid for; without it, only what is frozen is released. */
  function Pay(m: Setup, s: MineState, row: StatRow, level: Level): (MineState, bool)
  {
    if m.double(level.consume) > 0.0 then
      match Post(s.book, Call(Key(row.userId, m.consumeCoin), Delta(-level.consume, 0.0, 0.0)))
      case None => (s, false)
      case Some(book) => (s.(book := book), true)
    else (s, false)
  }

  function Mark(m: Setup, s: MineState, user: int, amount: real, cny: real): MineState
  {
    s.(mined := Plus(s.mined, user, m.double(cny)),
       isMiner := if m.double(amount) > 0.0 then s.isMiner + {user} else s.isMiner)
  }

  /** The reward of a user and then the share of who invited it. */
  function OwnThenShare(m: Setup, s: MineState, user: int, amount: real, cny: real): MineState
    requires user in s.earnings
  {
    var after := Grant(m, s, user, amount, true);
    if after.failed then after
    else Share(m, Mark(m, after, user, amount, cny), user, Times(amount, m.referrerRate), Times(cny, m.referrerRate))
  }

  /** What is due is the mined amount, if the consumption was paid for, and what is still frozen. */
  function AfterConsuming(m: Setup, s: MineState, row: StatRow, mines: bool): MineState
    requires row.userId in s.earnings
  {
    var cny := if mines then Times(row.moneyAll, m.minerRate) else 0.0;
    var amount := if mines then AtPrice(cny, m.price) else 0.0;
    if m.double(amount + s.earnings[row.userId].freeze) <= 0.0 then s
    else OwnThenShare(m, s, row.userId, amount, cny)
  }

  function MineRow(m: Setup, s: MineState, row: StatRow): MineState
  {
    var level := LevelOf(m.levels, row.moneyAll);
    if level.None? || row.userId !in s.earnings then s else
      var (paid, mines) := Pay(m, s, row, level.value);
      AfterConsuming(m, paid, row, mines)
  }

  /** A failed payment is an exception: it ends the pass. */
  function MineRows(m: Setup, s: MineState, rows: seq<StatRow>): MineState
  {
    if rows == [] then s else
      var before := MineRows(m, s, rows[..|rows| - 1]);
      if before.failed then before else MineRow(m, before, rows[|rows| - 1])
  }

  // ---- nothing is lost but rounding

  ghost function Held(earnings: map<int, Earnings>): int -> real
  {
    u => if u in earnings then earnings[u].give + earnings[u].freeze else 0.0
  }

  /** All earnings, given and frozen together. */
  ghost function AllHeld(earnings: map<int, Earnings>): real
  {
    RealSum(earnings.Keys, Held(earnings))
  }

  function AmountOf(log: seq<Granted>): real
  {
    if log == [] then 0.0 else AmountOf(log[..|log| - 1]) + log[|log| - 1].amount
  }

  /** What the log says was mined and shared is in the earnings, up to half a unit per update. */
  ghost predicate Conserves(before: MineState, after: MineState)
  {
    && before.earnings.Keys == after.earnings.Keys
    && before.log <= after.log
    && Within(AllHeld(after.earnings) - AllHeld(before.earnings), AmountOf(after.log) - AmountOf(before.log),
              |after.log| - |before.log|)
  }

  /** Up to half a unit for each of `n` updates. */
  predicate Within(held: real, due: real, n: int)
  {
    2.0 * due - n as real <= 2.0 * held <= 2.0 * due + n as real
  }

  /** Splitting anew what is due and what was frozen, whatever part of it is given. */
  function SplitAnew(e: Earnings, amount: real, reward: real): Earnings
  {
    Earnings(reward + e.give, HalfUp(amount + e.freeze - reward) as real)
  }

  lemma SplitConserves(earnings: map<int, Earnings>, user: int, amount: real, reward: real)
    requires user in earnings
    ensures var change := AllHeld(earnings[user := SplitAnew(earnings[user], amount, reward)]) - AllHeld(earnings);
            -0.5 <= change - amount <= 0.5
  {
    var after := earnings[user := SplitAnew(earnings[user], amount, reward)];
    HalfUpError(amount + earnings[user].freeze - reward);
    assert after.Keys == earnings.Keys;
    RealSumChange(earnings.Keys, user, Held(earnings), Held(after));
  }

  lemma GrantConserves(m: Setup, s: MineState, user: int, amount: real, own: bool)
    requires user in s.earnings
    ensures Conserves(s, Grant(m, s, user, amount, own))
  {
    var after := Grant(m, s, user, amount, own);
    if after.log != s.log {
      assert after.log[..|s.log|] == s.log;
      SplitConserves(s.earnings, user, amount, RewardOf(m, amount + s.earnings[user].freeze));
    }
  }

  /** When the conversion to a double is exact, the freeze rate is the share that stays frozen, up to
      rounding, except that less than 0.01 coin is given whole; and nothing negative is kept. */
  lemma FrozenShare(m: Setup, s: MineState, user: int, amount: real, own: bool)
    requires user in s.earnings && 0.0 <= m.freezeRate <= 1.0 && forall x :: m.double(x) == x
    requires 0.0 < amount + s.earnings[user].freeze && !Grant(m, s, user, amount, own).failed
    ensures var all, after := amount + s.earnings[user].freeze, Grant(m, s, user, amount, own).earnings[user];
            && 0.0 <= after.freeze && s.earnings[user].give <= after.give
            && (all < 1000000.0 ==> after == Earnings(s.earnings[user].give + all, 0.0))
            && (1000000.0 <= all ==> -0.5 <= after.freeze - Times(all, m.freezeRate) <= 0.5)
  {
    var all := amount + s.earnings[user].freeze;
    assert RewardOf(m, all) == if all < SMALL then all else Times(all, 1.0 - m.freezeRate);
    SplitShare(s.earnings[user], amount, m.freezeRate, RewardOf(m, all));
  }

  lemma SplitShare(e: Earnings, amount: real, rate: real, reward: real)
    requires 0.0 <= rate <= 1.0 && 0.0 < amount + e.freeze
    requires reward == if amount + e.freeze < SMALL then amount + e.freeze else Times(amount + e.freeze, 1.0 - rate)
    ensures var all, after := amount + e.freeze, SplitAnew(e, amount, reward);
            && 0.0 <= after.freeze && e.give <= after.give
            && (all < SMALL ==> after == Earnings(e.give + all, 0.0))
            && (SMALL <= all ==> -0.5 <= after.freeze - Times(all, rate) <= 0.5)
  {
    var all := amount + e.freeze;
    TimesFraction(all, 1.0 - rate);
    TimesFraction(all, rate);
    assert Times(all, 1.0 - rate) == all - Times(all, rate);
    HalfUpError(all - reward);
    HalfUpSign(all - reward);
    HalfUpWhole(0);
  }

  lemma ShareConserves(m: Setup, s: MineState, user: int, amount: real, cny: real)
    ensures Conserves(s, Share(m, s, user, amount, cny))
  {
    if user in m.invites && m.invites[user].Some? && m.invites[user].value in s.earnings {
      GrantConserves(m, s, m.invites[user].value, amount, false);
    }
  }

  lemma ConservesTwice(a: MineState, b: MineState, c: MineState)
    requires Conserves(a, b) && Conserves(b, c)
    ensures Conserves(a, c)
  {
  }

  lemma SameEarnings(a: MineState, b: MineState, c: MineState)
    requires a.earnings == b.earnings && a.log == b.log && Conserves(b, c)
    ensures Conserves(a, c)
  {
  }

  lemma OwnThenShareConserves(m: Setup, s: MineState, user: int, amount: real, cny: real)
    requires user in s.earnings
    ensures Conserves(s, OwnThenShare(m, s, user, amount, cny))
  {
    var after := Grant(m, s, user, amount, true);
    GrantConserves(m, s, user, amount, true);
    if !after.failed {
      var marked := Mark(m, after, user, amount, cny);
      ShareConserves(m, marked, user, Times(amount, m.referrerRate), Times(cny, m.referrerRate));
      SameEarnings(after, marked, OwnThenShare(m, s, user, amount, cny));
      ConservesTwice(s, after, OwnThenShare(m, s, user, amount, cny));
    }
  }

  lemma AfterConsumingConserves(m: Setup, s: MineState, row: StatRow, mines: bool)
    requires row.userId in s.earnings
    ensures Conserves(s, AfterConsuming(m, s, row, mines))
  {
    var cny := if mines then Times(row.moneyAll, m.minerRate) else 0.0;
    var amount := if mines then AtPrice(cny, m.price) else 0.0;
    OwnThenShareConserves(m, s, row.userId, amount, cny);
  }

  lemma RowConserves(m: Setup, s: MineState, row: StatRow)
    ensures Conserves(s, MineRow(m, s, row))
  {
    var level := LevelOf(m.levels, row.moneyAll);
    if level.Some? && row.userId in s.earnings {
      var (paid, mines) := Pay(m, s, row, level.value);
      AfterConsumingConserves(m, paid, row, mines);
      SameEarnings(s, paid, MineRow(m, s, row));
    }
  }

  /** Over a whole pass, whatever the double conversion makes of the rewards, the earnings change by the
      amounts mined and shared, up to half a unit for each update, even when the pass breaks off. */
  lemma {:induction false} PassConserves(m: Setup, s: MineState, rows: seq<StatRow>)
    ensures Conserves(s, MineRows(m, s, rows))
  {
    if rows != [] {
      var before := MineRows(m, s, rows[..|rows| - 1]);
      PassConserves(m, s, rows[..|rows| - 1]);
      if !before.failed {
        RowConserves(m, before, rows[|rows| - 1]);
        ConservesTwice(s, before, MineRow(m, before, rows[|rows| - 1]));
      }
    }
  }

  // ---- the pass as it is written

  class MineService {
    const ledger: Ledger
    var earnings: map<int, Earnings>
    var isMiner: set<int>
    var mined: map<int, real>
    var referred: map<int, real>
    ghost var log: seq<Granted>

    constructor (ledger: Ledger, earnings: map<int, Earnings>)
      ensures this.ledger == ledger && State(false) == MineState(ledger.Books(), earnings, {}, map[], map[], [], false)
    {
      this.ledger, this.earnings := ledger, earnings;
      isMiner, mined, referred, log := {}, map[], map[], [];
    }

    ghost function State(failed: bool): MineState
      reads this, ledger
    {
      MineState(ledger.Books(), earnings, isMiner, mined, referred, log, failed)
    }

    /** minering. It does nothing under a configuration that is out of range. */
    method Minering(m: Setup, rows: seq<StatRow>) returns (ok: bool)
      modifies this, ledger
      ensures 0.0 <= m.freezeRate <= 1.0 && 0.0 < m.price && 0.0 <= m.referrerRate <= 1.0 ==>
                State(!ok) == MineRows(m, old(State(false)), rows)
      ensures !(0.0 <= m.freezeRate <= 1.0 && 0.0 < m.price && 0.0 <= m.referrerRate <= 1.0) ==>
                State(!ok) == old(State(false))
    {
      if m.freezeRate < 0.0 || m.freezeRate > 1.0 || m.price <= 0.0 || m.referrerRate < 0.0 || m.referrerRate > 1.0 {
        return true;
      }
      assert rows[..0] == [];
      for i := 0 to |rows|
        invariant State(false) == MineRows(m, old(State(false)), rows[..i])
      {
        assert rows[..i + 1][..i] == rows[..i];
        ok := MineUser(m, rows[i]);
        if !ok {
          FailedStays(m, old(State(false)), rows, i + 1);
          return false;
        }
      }
      assert rows[..|rows|] == rows;
      ok := true;
    }

    method MineUser(m: Setup, row: StatRow) returns (ok: bool)
      modifies this, ledger
      ensures State(!ok) == MineRow(m, old(State(false)), row)
    {
      var level := GetUserLevel(m.levels, row.moneyAll);
      if level.None? || row.userId !in earnings {
        return true;
      }
      var mines := Consume(m, row, level.value);
      ok := MineAfter(m, row, mines);
    }

    /** The rest of the round, once the consumption was paid for or not. */
    method MineAfter(m: Setup, row: StatRow, mines: bool) returns (ok: bool)
      requires row.userId in earnings
      modifies this, ledger
      ensures State(!ok) == AfterConsuming(m, old(State(false)), row, mines)
    {
      var amount, cny := 0.0, 0.0;
      if mines {
        cny := Times(row.moneyAll, m.minerRate);
        amount := AtPrice(cny, m.price);
      }
      if m.double(amount + earnings[row.userId].freeze) <= 0.0 {
        return true;
      }
      ok := RewardAndShare(m, row.userId, amount, cny);
    }

    /** The consumption: a failure to pay it is caught. */
    method Consume(m: Setup, row: StatRow, level: Level) returns (mines: bool)
      modifies ledger
      ensures (State(false), mines) == Pay(m, old(State(false)), row, level)
    {
      mines := false;
      if m.double(level.consume) > 0.0 {
        mines := ledger.ChangeUserCoin(Key(row.userId, m.consumeCoin), Delta(-level.consume, 0.0, 0.0));
      }
    }

    method RewardAndShare(m: Setup, user: int, amount: real, cny: real) returns (ok: bool)
      requires user in earnings
      modifies this, ledger
      ensures State(!ok) == OwnThenShare(m, old(State(false)), user, amount, cny)
    {
      ok := GrantTo(m, user, amount, true);
      if !ok {
        return;
      }
      mined := Plus(mined, user, m.double(cny));
      if m.double(amount) > 0.0 {
        isMiner := isMiner + {user};
      }
      ok := ShareWith(m, user, Times(amount, m.referrerRate), Times(cny, m.referrerRate));
    }

    method ShareWith(m: Setup, user: int, amount: real, cny: real) returns (ok: bool)
      modifies this, ledger
      ensures State(!ok) == Share(m, old(State(false)), user, amount, cny)
    {
      if user !in m.invites || m.invites[user].None? || m.double(amount) <= 0.0 {
        return true;
      }
      var invite := m.invites[user].value;
      if invite !in earnings || invite !in m.redis {
        return true;
      }
      var miner := HasMined(m, invite);
      if !miner || m.double(amount + earnings[invite].freeze) <= 0.0 {
        return true;
      }
      ok := GrantTo(m, invite, amount, false);
      if ok {
        referred := Plus(referred, invite, m.double(cny));
      }
    }

    /** isMiner. */
    method HasMined(m: Setup, user: int) returns (yes: bool)
      requires user in m.redis
      ensures yes == IsMiner(m, State(false), user)
    {
      if user in isMiner {
        return true;
      }
      var level := GetUserLevel(m.levels, m.redis[user]);
      if level.None? || level.value.id < 2 || Key(user, ENG11) !in ledger.wallets {
        return false;
      }
      return m.double(ledger.wallets[Key(user, ENG11)].available as real) >= m.double(level.value.consume);
    }

    /** The split that both rewards share. */
    method GrantTo(m: Setup, user: int, amount: real, own: bool) returns (ok: bool)
      requires user in earnings
      modifies this`earnings, this`log, ledger
      ensures State(!ok) == Grant(m, old(State(false)), user, amount, own)
    {
      var e := earnings[user];
      var reward := Release(m, amount + e.freeze);
      var split := Earnings(reward + e.give, HalfUp(amount + e.freeze - reward) as real);
      ok := ledger.ChangeUserCoin(Key(user, m.platCoin), Delta(if own then m.double(reward) else reward, 0.0, 0.0));
      if ok {
        earnings := earnings[user := split];
        log := log + [Granted(user, amount)];
      }
    }

    /** What of an amount is given now. */
    method Release(m: Setup, amountAll: real) returns (reward: real)
      ensures reward == RewardOf(m, amountAll)
    {
      if m.double(amountAll) < SMALL {
        reward := amountAll;
      } else {
        reward := Times(amountAll, 1.0 - m.freezeRate);
      }
      reward := m.double(reward);
    }
  }

  lemma {:induction false} FailedStays(m: Setup, s: MineState, rows: seq<StatRow>, n: nat)
    requires n <= |rows| && MineRows(m, s, rows[..n]).failed
    ensures MineRows(m, s, rows) == MineRows(m, s, rows[..n])
    decreases |rows|
  {
    if n < |rows| {
      assert rows[..|rows| - 1][..n] == rows[..n];
      FailedStays(m, s, rows[..|rows| - 1], n);
    } else {
      assert rows[..n] == rows;
    }
  }
}
