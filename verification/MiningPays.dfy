/** What a mining pass pays into the wallets: what the earnings record as given, and nothing that they keep
    frozen, less the consumption; and what it records as mined. */
module MiningPays {
  import opened Ledgers
  import opened Levels
  import opened Mining
  import opened Rounding
  import opened Sums

  /** Converting a value twice makes no difference to converting it once. */
  ghost predicate Settles(m: Setup)
  {
    forall x :: m.double(m.double(x)) == m.double(x)
  }

  function GivenTo(s: MineState, user: int): real
  {
    if user in s.earnings then s.earnings[user].give else 0.0
  }

  /** How many earnings updates of a user the log holds. */
  function Updates(log: seq<Granted>, user: int): nat
  {
    if log == [] then 0 else
      Updates(log[..|log| - 1], user) + if log[|log| - 1].user == user then 1 else 0
  }

  lemma OneMoreUpdate(log: seq<Granted>, g: Granted, user: int)
    ensures Updates(log + [g], user) == Updates(log, user) + if g.user == user then 1 else 0
  {
    assert (log + [g])[..|log|] == log;
  }

  // ---- one reward

  lemma CreditRaises(b: Book, k: Key, x: real)
    requires NoDebts(b) && Post(b, Call(k, Delta(x, 0.0, 0.0))).Some?
    ensures var after := Post(b, Call(k, Delta(x, 0.0, 0.0))).value;
            && NoDebts(after) && WalletOf(after, k) == Shifted(WalletOf(b, k), HalfUp(x), 0)
            && (forall other :: other != k ==> WalletOf(after, other) == WalletOf(b, other))
  {
    HalfUpWhole(0);
    PostShifts(b, Call(k, Delta(x, 0.0, 0.0)), HalfUp(x), 0);
  }

  /** A grant that does not fail raises the available platform coin of its user by what the earnings record
      as given, rounded once, and changes no other bucket or wallet. */
  lemma GrantPays(m: Setup, s: MineState, user: int, amount: real, own: bool)
    requires Settles(m) && user in s.earnings && NoDebts(s.book)
    requires !s.failed && !Grant(m, s, user, amount, own).failed
    ensures var after, k := Grant(m, s, user, amount, own), Key(user, m.platCoin);
            && WalletOf(after.book, k)
               == Shifted(WalletOf(s.book, k), HalfUp(GivenTo(after, user) - GivenTo(s, user)), 0)
            && (forall other :: other != k ==> WalletOf(after.book, other) == WalletOf(s.book, other))
            && (forall other :: other != user ==> GivenTo(after, other) == GivenTo(s, other))
            && NoDebts(after.book)
  {
    var reward := RewardOf(m, amount + s.earnings[user].freeze);
    assert m.double(reward) == reward;
    CreditRaises(s.book, Key(user, m.platCoin), reward);
    assert GivenTo(Grant(m, s, user, amount, own), user) - GivenTo(s, user) == reward;
  }

  /** From `before` to `after` a wallet of platform coin rose by what its user's earnings record as given,
      up to half a unit per update, less what was taken; any other fell by what was taken; frozen and award
      money stayed. */
  ghost predicate PaysOut(m: Setup, before: MineState, after: MineState, k: Key, taken: int)
  {
    var b, a := WalletOf(before.book, k), WalletOf(after.book, k);
    && a.freeze == b.freeze && a.award == b.award
    && if k.coin != m.platCoin then a.available == b.available - taken
       else
         var off := (a.available - b.available + taken) as real - (GivenTo(after, k.user) - GivenTo(before, k.user));
         var n := (Updates(after.log, k.user) - Updates(before.log, k.user)) as real;
         -0.5 * n <= off <= 0.5 * n
  }

  lemma PaysOutTwice(m: Setup, a: MineState, b: MineState, c: MineState, k: Key, t: int, t2: int)
    requires PaysOut(m, a, b, k, t) && PaysOut(m, b, c, k, t2)
    ensures PaysOut(m, a, c, k, t + t2)
  {
  }

  lemma NothingPaid(m: Setup, a: MineState, b: MineState, k: Key)
    requires a.book == b.book && a.earnings == b.earnings && a.log == b.log
    ensures PaysOut(m, a, b, k, 0)
  {
  }

  lemma GrantPaysOut(m: Setup, s: MineState, user: int, amount: real, own: bool, k: Key)
    requires Settles(m) && user in s.earnings && NoDebts(s.book) && !s.failed
    ensures PaysOut(m, s, Grant(m, s, user, amount, own), k, 0) && NoDebts(Grant(m, s, user, amount, own).book)
  {
    var after := Grant(m, s, user, amount, own);
    if after.failed {
      NothingPaid(m, s, after, k);
    } else {
      GrantPays(m, s, user, amount, own);
      HalfUpError(GivenTo(after, user) - GivenTo(s, user));
      OneMoreUpdate(s.log, Granted(user, amount), k.user);
    }
  }

  lemma SharePaysOut(m: Setup, s: MineState, user: int, amount: real, cny: real, k: Key)
    requires Settles(m) && NoDebts(s.book) && !s.failed
    ensures PaysOut(m, s, Share(m, s, user, amount, cny), k, 0) && NoDebts(Share(m, s, user, amount, cny).book)
  {
    NothingPaid(m, s, s, k);
    if user in m.invites && m.invites[user].Some? && m.invites[user].value in s.earnings {
      var invite := m.invites[user].value;
      var granted := Grant(m, s, invite, amount, false);
      GrantPaysOut(m, s, invite, amount, false, k);
      NothingPaid(m, granted, granted.(referred := Plus(granted.referred, invite, m.double(cny))), k);
      PaysOutTwice(m, s, granted, granted.(referred := Plus(granted.referred, invite, m.double(cny))), k, 0, 0);
    }
  }

  lemma OwnThenSharePaysOut(m: Setup, s: MineState, user: int, amount: real, cny: real, k: Key)
    requires Settles(m) && user in s.earnings && NoDebts(s.book) && !s.failed
    ensures var after := OwnThenShare(m, s, user, amount, cny);
            PaysOut(m, s, after, k, 0) && NoDebts(after.book)
  {
    var own := Grant(m, s, user, amount, true);
    GrantPaysOut(m, s, user, amount, true, k);
    if !own.failed {
      var marked := Mark(m, own, user, amount, cny);
      var after := Share(m, marked, user, Times(amount, m.referrerRate), Times(cny, m.referrerRate));
      NothingPaid(m, own, marked, k);
      SharePaysOut(m, marked, user, Times(amount, m.referrerRate), Times(cny, m.referrerRate), k);
      PaysOutTwice(m, s, own, marked, k, 0, 0);
      PaysOutTwice(m, s, marked, after, k, 0, 0);
    }
  }

  // ---- one row

  /** A row mines if its level's consumption is positive and its wallet holds it. */
  predicate Mines(m: Setup, s: MineState, row: StatRow)
  {
    && row.userId in s.earnings && LevelOf(m.levels, row.moneyAll).Some?
    && var consume := LevelOf(m.levels, row.moneyAll).value.consume;
       && m.double(consume) > 0.0
       && HalfUp(consume) <= WalletOf(s.book, Key(row.userId, m.consumeCoin)).available
  }

  /** What a row takes from a wallet: the consumption, rounded, from its user's wallet, if it mines. */
  function Taken(m: Setup, s: MineState, row: StatRow, k: Key): int
  {
    if k == Key(row.userId, m.consumeCoin)
        && Mines(m, s, row) then HalfUp(LevelOf(m.levels, row.moneyAll).value.consume)
    else 0
  }

  lemma PayTakes(m: Setup, s: MineState, row: StatRow, k: Key)
    requires NoDebts(s.book) && row.userId in s.earnings && m.levels != []
    ensures var (paid, mines) := Pay(m, s, row, LevelOf(m.levels, row.moneyAll).value);
            && mines == Mines(m, s, row) && NoDebts(paid.book) && paid == s.(book := paid.book)
            && WalletOf(paid.book, k) == Shifted(WalletOf(s.book, k), -Taken(m, s, row, k), 0)
  {
    var consume := LevelOf(m.levels, row.moneyAll).value.consume;
    HalfUpSymmetric(consume);
    HalfUpWhole(0);
    PostShifts(s.book, Call(Key(row.userId, m.consumeCoin), Delta(-consume, 0.0, 0.0)), -HalfUp(consume), 0);
  }

  lemma TakenPaysOut(m: Setup, a: MineState, b: MineState, k: Key, taken: int)
    requires a.earnings == b.earnings && a.log == b.log
    requires WalletOf(b.book, k) == Shifted(WalletOf(a.book, k), -taken, 0)
    ensures PaysOut(m, a, b, k, taken)
  {
  }

  lemma RowPaysOut(m: Setup, s: MineState, row: StatRow, k: Key)
    requires Settles(m) && NoDebts(s.book) && !s.failed
    ensures PaysOut(m, s, MineRow(m, s, row), k, Taken(m, s, row, k)) && NoDebts(MineRow(m, s, row).book)
  {
    var level := LevelOf(m.levels, row.moneyAll);
    if level.None? || row.userId !in s.earnings {
      NothingPaid(m, s, s, k);
    } else {
      var (paid, mines) := Pay(m, s, row, level.value);
      PayTakes(m, s, row, k);
      TakenPaysOut(m, s, paid, k, Taken(m, s, row, k));
      AfterConsumingPaysOut(m, paid, row, mines, k);
      PaysOutTwice(m, s, paid, MineRow(m, s, row), k, Taken(m, s, row, k), 0);
    }
  }

  lemma AfterConsumingPaysOut(m: Setup, s: MineState, row: StatRow, mines: bool, k: Key)
    requires Settles(m) && NoDebts(s.book) && row.userId in s.earnings && !s.failed
    ensures var after := AfterConsuming(m, s, row, mines); PaysOut(m, s, after, k, 0) && NoDebts(after.book)
  {
    var cny := if mines then Times(row.moneyAll, m.minerRate) else 0.0;
    var amount := if mines then AtPrice(cny, m.price) else 0.0;
    NothingPaid(m, s, s, k);
    OwnThenSharePaysOut(m, s, row.userId, amount, cny, k);
  }

  // ---- a pass

  /** What the rows that mine take from a wallet. */
  function TakenByAll(m: Setup, s: MineState, rows: seq<StatRow>, k: Key): int
  {
    if rows == [] then 0 else
      var before := MineRows(m, s, rows[..|rows| - 1]);
      TakenByAll(m, s, rows[..|rows| - 1], k) + if before.failed then 0 else Taken(m, before, rows[|rows| - 1], k)
  }

  /** Over a whole pass, even one that breaks off, every wallet of platform coin rises by what its user's
      earnings record as newly given, up to half a unit per update, less the consumption taken from it;
      every other wallet falls by the consumption; nothing frozen and no award moves. */
  lemma {:induction false} PassPaysOut(m: Setup, s: MineState, rows: seq<StatRow>, k: Key)
    requires Settles(m) && NoDebts(s.book)
    ensures PaysOut(m, s, MineRows(m, s, rows), k, TakenByAll(m, s, rows, k)) && NoDebts(MineRows(m, s, rows).book)
  {
    if rows == [] {
      NothingPaid(m, s, s, k);
    } else {
      var n := |rows| - 1;
      var before := MineRows(m, s, rows[..n]);
      PassPaysOut(m, s, rows[..n], k);
      if !before.failed {
        RowPaysOut(m, before, rows[n], k);
        PaysOutTwice(m, s, before, MineRow(m, before, rows[n]), k, TakenByAll(m, s, rows[..n], k),
            Taken(m, before, rows[n], k));
      }
    }
  }

  // ---- what is mined

  /** At a positive price an amount times the price is the money, up to five hundredths of the price: the
      division keeps nine places. */
  lemma AtPriceIsClose(money: real, price: real)
    requires 0.0 < price
    ensures -0.05 * price <= Times(AtPrice(money, price), price) - money <= 0.05 * price
  {
    OverTimes(money, price);
    AtNinePlaces(money, price);
    TimesClose(AtPrice(money, price), money / price, 0.05, price);
    TimesIsProduct(0.05, price);
  }

  lemma AtNinePlaces(money: real, price: real)
    requires 0.0 < price
    ensures -0.05 <= AtPrice(money, price) - money / price <= 0.05
  {
    HalfUpError(money / price * 10.0);
  }

  /** The reward a row is due for mining: its money times the rate, at the price; nothing if it does not mine. */
  ghost predicate DueFor(m: Setup, row: StatRow, mines: bool, amount: real, cny: real)
  {
    if mines then
      cny == Times(row.moneyAll, m.minerRate) && -0.05 * m.price <= Times(amount, m.price) - cny <= 0.05 * m.price
    else cny == 0.0 && amount == 0.0
  }

  /** What a row adds to the log and the day's hashes: nothing; or its reward, and with it the mined CNY; and
      then the share of the inviter, at the referrer rate, and with it the referred CNY. */
  ghost predicate Adds(m: Setup, s: MineState, after: MineState, user: int, amount: real, cny: real)
  {
    || (after.log == s.log && after.mined == s.mined && after.referred == s.referred)
    || (after.log == s.log + [Granted(user, amount)]
        && after.mined == Plus(s.mined, user, m.double(cny)) && after.referred == s.referred)
    || (user in m.invites && m.invites[user].Some?
        && var invite := m.invites[user].value;
           && after.log == s.log + [Granted(user, amount), Granted(invite, Times(amount, m.referrerRate))]
           && after.mined == Plus(s.mined, user, m.double(cny))
           && after.referred == Plus(s.referred, invite, m.double(Times(cny, m.referrerRate))))
  }

  lemma RowRecords(m: Setup, s: MineState, row: StatRow) returns (amount: real, cny: real)
    requires NoDebts(s.book) && 0.0 < m.price && !s.failed
    ensures DueFor(m, row, Mines(m, s, row), amount, cny)
    ensures Adds(m, s, MineRow(m, s, row), row.userId, amount, cny)
    ensures !MineRow(m, s, row).failed ==>
              (MineRow(m, s, row).log != s.log <==>
                 && row.userId in s.earnings && m.levels != []
                 && m.double(amount + s.earnings[row.userId].freeze) > 0.0)
  {
    var mines := Mines(m, s, row);
    amount, cny := Due(m, row, mines);
    if m.levels != [] && row.userId in s.earnings {
      var (paid, _) := Pay(m, s, row, LevelOf(m.levels, row.moneyAll).value);
      PayTakes(m, s, row, Key(row.userId, m.consumeCoin));
      DueRecords(m, paid, row, mines, amount, cny);
    }
  }

  lemma DueRecords(m: Setup, s: MineState, row: StatRow, mines: bool, amount: real, cny: real)
    requires row.userId in s.earnings && !s.failed
    requires cny == if mines then Times(row.moneyAll, m.minerRate) else 0.0
    requires amount == if mines then AtPrice(cny, m.price) else 0.0
    ensures var after := AfterConsuming(m, s, row, mines);
            && Adds(m, s, after, row.userId, amount, cny)
            && (!after.failed ==>
                  (after.log != s.log <==> m.double(amount + s.earnings[row.userId].freeze) > 0.0))
  {
    OwnThenShareRecords(m, s, row.userId, amount, cny);
  }

  /** The day's hashes add up. */
  lemma HashesAddUp(hash: map<int, real>, key: int, amount: real)
    ensures Plus(hash, key, amount) == hash[key := amount + if key in hash then hash[key] else 0.0]
  {
  }

  lemma Due(m: Setup, row: StatRow, mines: bool) returns (amount: real, cny: real)
    requires 0.0 < m.price
    ensures DueFor(m, row, mines, amount, cny)
    ensures cny == if mines then Times(row.moneyAll, m.minerRate) else 0.0
    ensures amount == if mines then AtPrice(cny, m.price) else 0.0
  {
    cny := if mines then Times(row.moneyAll, m.minerRate) else 0.0;
    amount := if mines then AtPrice(cny, m.price) else 0.0;
    AtPriceIsClose(cny, m.price);
  }

  lemma ShareRecords(m: Setup, s: MineState, user: int, amount: real, cny: real)
    requires !s.failed
    ensures var after := Share(m, s, user, amount, cny);
            && after.mined == s.mined
            && (|| (after.log == s.log && after.referred == s.referred)
                || (user in m.invites && m.invites[user].Some?
                    && after.log == s.log + [Granted(m.invites[user].value, amount)]
                    && after.referred == Plus(s.referred, m.invites[user].value, m.double(cny))))
  {
  }

  lemma OwnThenShareRecords(m: Setup, s: MineState, user: int, amount: real, cny: real)
    requires user in s.earnings && !s.failed
    ensures Adds(m, s, OwnThenShare(m, s, user, amount, cny), user, amount, cny)
    ensures !OwnThenShare(m, s, user, amount, cny).failed ==> OwnThenShare(m, s, user, amount, cny).log != s.log
  {
    var own := Grant(m, s, user, amount, true);
    if !own.failed {
      var marked := Mark(m, own, user, amount, cny);
      var share, shareCny := Times(amount, m.referrerRate), Times(cny, m.referrerRate);
      ShareRecords(m, marked, user, share, shareCny);
      if user in m.invites && m.invites[user].Some? {
        var mine, theirs := Granted(user, amount), Granted(m.invites[user].value, share);
        assert s.log + [mine] + [theirs] == s.log + [mine, theirs];
      }
    }
  }

  /** The inviter gets the share exactly if it is known to the earnings and the settlement, has mined in this
      pass or is of the second level or above and holds its consumption in ENG11, and something is due. */
  lemma SharesExactly(m: Setup, s: MineState, user: int, amount: real, cny: real)
    requires !s.failed && !Share(m, s, user, amount, cny).failed
    ensures Share(m, s, user, amount, cny).log != s.log <==>
            && user in m.invites && m.invites[user].Some? && 0.0 < m.double(amount)
            && var invite := m.invites[user].value;
               && invite in s.earnings && invite in m.redis && 0.0 < m.double(amount + s.earnings[invite].freeze)
               && (|| invite in s.isMiner
                   || (m.levels != []
                       && var level := LevelOf(m.levels, m.redis[invite]).value;
                          && 2 <= level.id && Key(invite, "ENG11") in s.book.wallets
                          && m.double(level.consume)
                             <= m.double(s.book.wallets[Key(invite, "ENG11")].available as real)))
  {
  }

  /** Who was due something counts as having mined for the rest of the pass. */
  lemma MarkedAsMiner(m: Setup, s: MineState, user: int, amount: real, cny: real)
    ensures Mark(m, s, user, amount, cny).isMiner == s.isMiner + if 0.0 < m.double(amount) then {user} else {}
  {
  }
}
