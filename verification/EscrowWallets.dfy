/** What each request of the escrow services does to the wallets, in terms of the request and the rows: who
    pays, who receives, in which bucket, and when the request is accepted at all. */
module EscrowWallets {
  import opened Escrow
  import opened EscrowRuns
  import opened Ledgers
  import opened Rounding
  import opened Sums

  /** A wallet's available and frozen money changed by so much, and its award not. */
  ghost predicate Changed(w: World, after: World, k: Key, available: int, freeze: int)
  {
    var v := WalletOf(w.book, k);
    WalletOf(after.book, k) == Wallet(v.available + available, v.freeze + freeze, v.award)
  }

  /** The amount of the fee rule: a share of the amount, at the rate of exchange. */
  function Fee(amount: real, select: int, rate: real, changeRate: real): real
  {
    if select == 0 then amount * rate * changeRate else 0.0
  }

  lemma FeeIsShare(amount: real, select: int, rate: real, changeRate: real)
    ensures FeeOf(amount, rate, select, changeRate).Some? <==> select != 1
    ensures select != 1 ==> FeeOf(amount, rate, select, changeRate) == Some(Fee(amount, select, rate, changeRate))
  {
    if select == 0 {
      assert Times(Times(amount, rate), changeRate) == amount * rate * changeRate;
    } else {
      assert Times(0.0, changeRate) == 0.0;
    }
  }

  // ---- ledger calls

  lemma TwoShifts(b: Book, c: Call, a: int, f: int, d: Call, a2: int, f2: int, k: Key)
    requires NoDebts(b) && Shifts(c, a, f) && Shifts(d, a2, f2)
    ensures var after := PostTogether(b, [c, d]);
            && (after.Some? <==>
                  && Fits(WalletOf(b, c.key), a, f)
                  && Fits(WalletOf(b, d.key), If(d.key == c.key, a) + a2, If(d.key == c.key, f) + f2))
            && (after.Some? ==>
                  && NoDebts(after.value)
                  && WalletOf(after.value, k)
                     == Shifted(WalletOf(b, k), If(k == c.key, a) + If(k == d.key, a2), If(k == c.key, f)
                         + If(k == d.key, f2)))
  {
    PostShifts(b, c, a, f);
    if Post(b, c).Some? {
      PostShifts(Post(b, c).value, d, a2, f2);
      TwoCalls(b, c, d);
    }
  }

  /** Three calls that move available money, of which the last adds some. */
  lemma ThreeShifts(b: Book, c: Call, x: int, d: Call, y: int, e: Call, z: nat, k: Key)
    requires NoDebts(b) && Shifts(c, x, 0) && Shifts(d, y, 0) && Shifts(e, z, 0)
    ensures var after := PostTogether(b, [c, d, e]);
            && (after.Some? <==>
                  && 0 <= WalletOf(b, c.key).available + x
                  && 0 <= WalletOf(b, d.key).available + If(d.key == c.key, x) + y)
            && (after.Some? ==>
                  && NoDebts(after.value)
                  && WalletOf(after.value, k)
                     == Shifted(WalletOf(b, k), If(k == c.key, x) + If(k == d.key, y) + If(k == e.key, z), 0))
  {
    ThreeCalls(b, c, d, e);
    PostShifts(b, c, x, 0);
    if Post(b, c).Some? {
      var b1 := Post(b, c).value;
      PostShifts(b1, d, y, 0);
      if Post(b1, d).Some? {
        PostShifts(Post(b1, d).value, e, z, 0);
      }
    }
  }

  /** A transfer between users is accepted exactly if it is enabled, within the limits and the sender can
      pay amount and fee; then the sender pays both and the recipient gets the amount, also when some of
      the three wallets are one, and nobody else is touched. */
  lemma TransferMoves(w: World, user: int, coin: string, toUser: int, amount: real, config: CoinConfig,
                      changeRate: real, platCoin: string, k: Key)
    requires NoDebts(w.book)
    ensures var after := Next(w, TransferInner(user, coin, toUser, amount, Some(config), changeRate, platCoin));
            var fee := Fee(amount, config.transferFeeSelect, config.transferFeeRate, changeRate);
            var sender, payer, receiver := Key(user, coin), Key(user, platCoin), Key(toUser, coin);
            && (after.Some? <==>
                  && 0.0 < amount && config.transferEnable == 1 && config.transferFeeSelect != 1
                  && config.transferMin <= amount <= config.transferMax
                  && HalfUp(amount) <= WalletOf(w.book, sender).available
                  && HalfUp(fee) + If(platCoin == coin, HalfUp(amount)) <= WalletOf(w.book, payer).available)
            && (after.Some? ==>
                  && Changed(w, after.value, k,
                             If(k == receiver, HalfUp(amount)) - If(k == sender, HalfUp(amount))
                                 - If(k == payer, HalfUp(fee)), 0)
                  && after.value.orders == w.orders
                  && after.value.sends == w.sends + [SendCoin(user, coin, amount, fee, Passed, false)])
  {
    var fee := Fee(amount, config.transferFeeSelect, config.transferFeeRate, changeRate);
    FeeIsShare(amount, config.transferFeeSelect, config.transferFeeRate, changeRate);
    if 0.0 < amount {
      HalfUpSign(amount);
      HalfUpSymmetric(amount);
      HalfUpSymmetric(fee);
      HalfUpWhole(0);
      ThreeShifts(w.book, CreditCall(Key(user, coin), -amount), -HalfUp(amount),
                  CreditCall(Key(user, platCoin), -fee), -HalfUp(fee), CreditCall(Key(toUser, coin), amount),
                      HalfUp(amount), k);
    }
  }

  // ---- withdrawals

  /** How a move of `n` units changes the available and the frozen money. */
  function ToAvailable(move: Move, n: int): int
  {
    match move
    case Freezing => -n
    case Spending => 0
    case Unfreezing => n
  }

  function ToFrozen(move: Move, n: int): int
  {
    match move
    case Freezing => n
    case Spending => -n
    case Unfreezing => -n
  }

  lemma LegShifts(of: Key, x: real, move: Move)
    ensures var c := CallOf(move)(of, x);
            c.key == of && Shifts(c, ToAvailable(move, HalfUp(x)), ToFrozen(move, HalfUp(x)))
  {
    HalfUpWhole(0);
    HalfUpSymmetric(x);
  }

  /** Both legs of a withdrawal: the fee in BSTS, if there is one, and the amount. */
  lemma LegsMove(b: Book, s: SendCoin, move: Move, k: Key)
    requires NoDebts(b)
    ensures var after := PostTogether(b, Legs(s, CallOf(move)));
            var amount, fee := HalfUp(s.amount), If(0.0 < s.fee, HalfUp(s.fee));
            var all := amount + If(s.coin == BSTS, fee);
            var moved := If(k == SendKey(s), amount) + If(k == FeeKey(s), fee);
            && (after.Some? <==>
                  && (0.0 < s.fee ==> Fits(WalletOf(b, FeeKey(s)), ToAvailable(move, fee), ToFrozen(move, fee)))
                  && Fits(WalletOf(b, SendKey(s)), ToAvailable(move, all), ToFrozen(move, all)))
            && (after.Some? ==>
                  WalletOf(after.value, k) == Shifted(WalletOf(b, k), ToAvailable(move, moved), ToFrozen(move, moved)))
  {
    var leg := CallOf(move);
    var main := leg(SendKey(s), s.amount);
    var amount := HalfUp(s.amount);
    LegShifts(SendKey(s), s.amount, move);
    if 0.0 < s.fee {
      var fee := leg(FeeKey(s), s.fee);
      LegShifts(FeeKey(s), s.fee, move);
      assert Legs(s, leg) == [fee, main];
      TwoShifts(b, fee, ToAvailable(move, HalfUp(s.fee)), ToFrozen(move, HalfUp(s.fee)),
                main, ToAvailable(move, amount), ToFrozen(move, amount), k);
    } else {
      assert Legs(s, leg) == [main];
      PostShifts(b, main, ToAvailable(move, amount), ToFrozen(move, amount));
      OneCall(b, main);
    }
  }

  /** A withdrawal is accepted exactly under its guards and if the wallet holds the amount and, when there
      is a fee, the BSTS wallet the fee; both are frozen and the row is written. */
  lemma TransferOutFreezes(w: World, user: int, coin: string, amount: real, toPlatform: bool, config: CoinConfig,
                           changeRate: real, k: Key)
    requires NoDebts(w.book)
    ensures var after := Next(w, TransferOut(user, coin, amount, toPlatform, Some(config), changeRate));
            var share := Fee(amount, config.transferFeeSelect, config.withdrawFeeRate, changeRate);
            var fee := If(0.0 < share, HalfUp(share));
            var moved := If(k == Key(user, coin), HalfUp(amount)) + If(k == Key(user, "BSTS"), fee);
            && (after.Some? <==>
                  && 0.0 < amount && Key(user, coin) in w.book.wallets && !toPlatform && config.transferFeeSelect != 1
                  && config.withdrawMin <= amount <= config.withdrawMax
                  && fee <= WalletOf(w.book, Key(user, "BSTS")).available
                  && HalfUp(amount) + If(coin == "BSTS", fee) <= WalletOf(w.book, Key(user, coin)).available)
            && (after.Some? ==>
                  && Changed(w, after.value, k, -moved, moved)
                  && after.value.orders == w.orders
                  && after.value.sends == w.sends + [SendCoin(user, coin, amount, share, Applying, true)])
  {
    var share := Fee(amount, config.transferFeeSelect, config.withdrawFeeRate, changeRate);
    FeeIsShare(amount, config.transferFeeSelect, config.withdrawFeeRate, changeRate);
    if 0.0 < amount {
      var s := SendCoin(user, coin, amount, share, Applying, true);
      HalfUpSign(amount);
      HalfUpSign(share);
      LegsMove(w.book, s, Freezing, k);
    }
  }

  /** Passing a withdrawal takes what was frozen for it, unless the node gave no answer. */
  lemma PassTakes(w: World, id: int, answer: Answer, k: Key)
    requires Accounted(w) && 0 <= id < |w.sends| && w.sends[id].status.Applying?
    ensures var s, after := w.sends[id], Next(w, CheckPass(id, answer));
            var fee := If(0.0 < s.fee, HalfUp(s.fee));
            var moved := If(k == Key(s.userId, s.coin), HalfUp(s.amount)) + If(k == Key(s.userId, "BSTS"), fee);
            && (after.Some? <==> answer != NoTxid)
            && (after.Some? ==>
                  && Changed(w, after.value, k, 0, -moved)
                  && after.value.sends == w.sends[id := s.(status := if answer == Timeout then Other else Passed)])
  {
    WithdrawalSettlementNeverShort(w, id, answer);
    LegsMove(w.book, w.sends[id], Spending, k);
  }

  /** Failing it gives that back. */
  lemma FailGivesBack(w: World, id: int, k: Key)
    requires Accounted(w) && 0 <= id < |w.sends| && w.sends[id].status.Applying?
    ensures var s, after := w.sends[id], Next(w, CheckFail(id));
            var fee := If(0.0 < s.fee, HalfUp(s.fee));
            var moved := If(k == Key(s.userId, s.coin), HalfUp(s.amount)) + If(k == Key(s.userId, "BSTS"), fee);
            && after.Some? && Changed(w, after.value, k, moved, -moved)
            && after.value.sends == w.sends[id := s.(status := Failed)]
  {
    WithdrawalSettlementNeverShort(w, id, NoTxid);
    LegsMove(w.book, w.sends[id], Unfreezing, k);
  }

  // ---- orders

  /** A sale is accepted exactly under its guards and if the seller holds the amount, which is frozen. */
  lemma WithdrawFreezes(w: World, user: int, coin: string, amount: real, price: real, bankUser: Option<int>,
                        plat: PlatConfig, now: int, k: Key)
    requires NoDebts(w.book)
    ensures var after := Next(w, Withdraw(user, coin, amount, price, bankUser, Some(plat), now));
            var moved := If(k == Key(user, coin), HalfUp(amount));
            && (after.Some? <==>
                  && 0.0 < amount && bankUser == Some(user) && price <= plat.sellPrice
                  && plat.startTime <= now <= plat.endTime
                  && HalfUp(amount) <= WalletOf(w.book, Key(user, coin)).available)
            && (after.Some? ==>
                  && Changed(w, after.value, k, -moved, moved)
                  && after.value.sends == w.sends
                  && after.value.orders == w.orders + [PlatOrder(user, coin, Sell, amount, price, Accepted)])
  {
    HalfUpSign(amount);
    HalfUpSymmetric(amount);
    HalfUpWhole(0);
    PostShifts(w.book, FreezeCall(Key(user, coin), amount), -HalfUp(amount), HalfUp(amount));
  }

  /** A purchase is accepted exactly under its guards, at the platform's price, and moves no money. */
  lemma DepositOnlyRecords(w: World, user: int, coin: string, amount: real, price: real, hasBank: bool,
                           plat: PlatConfig, now: int)
    ensures var after := Next(w, Deposit(user, coin, amount, price, hasBank, Some(plat), now));
            && (after.Some? <==>
                  0.0 < amount && hasBank && plat.buyPrice <= price && plat.startTime <= now <= plat.endTime)
            && (after.Some? ==>
                  after.value == w.(orders := w.orders + [PlatOrder(user, coin, Buy, amount, plat.buyPrice, Accepted)]))
  {
  }

  /** Canceling gives a sale's money back and moves nothing for a purchase; every order that was accepted,
      marked paid or complained about can be canceled by the administrator, an accepted one by its owner. */
  lemma CancelMoves(w: World, id: int, user: int, k: Key)
    requires Accounted(w) && 0 <= id < |w.orders|
    ensures var o, byAdmin, byOwner := w.orders[id], Next(w, AdminCancel(id)), Next(w, Cancel(user, id));
            var moved := If(k == Key(o.userId, o.coin) && o.kind == Sell, HalfUp(o.amount));
            && (byAdmin.Some? <==> o.status == Accepted || o.status == Paid || o.status == Complaint)
            && (byOwner.Some? <==> o.status == Accepted && o.userId == user)
            && (byAdmin.Some? ==>
                  && Changed(w, byAdmin.value, k, moved, -moved)
                  && byAdmin.value.orders == w.orders[id := o.(status := Canceled)])
            && (byOwner.Some? ==> byOwner == byAdmin)
  {
    var o := w.orders[id];
    assert o in w.orders;
    OrderSettlementNeverShort(w, id, user);
    HalfUpSign(o.amount);
    HalfUpSymmetric(o.amount);
    HalfUpWhole(0);
    PostShifts(w.book, UnfreezeCall(OrderKey(o), o.amount), HalfUp(o.amount), -HalfUp(o.amount));
    OneCall(w.book, UnfreezeCall(OrderKey(o), o.amount));
  }

  /** Confirming takes a sale's frozen money or credits a purchase; a sale that was marked paid waits for a
      complaint. */
  lemma ConfirmMoves(w: World, id: int, k: Key)
    requires Accounted(w) && 0 <= id < |w.orders|
    ensures var o, after := w.orders[id], Next(w, AdminConfirm(id));
            var moved := If(k == Key(o.userId, o.coin), HalfUp(o.amount));
            && (after.Some? <==> o.status == Accepted || o.status == Complaint || (o.kind == Buy && o.status == Paid))
            && (after.Some? ==>
                  && Changed(w, after.value, k, if o.kind == Sell then 0
                      else moved, if o.kind == Sell then -moved else 0)
                  && after.value.orders == w.orders[id := o.(status := Done)])
  {
    var o := w.orders[id];
    assert o in w.orders;
    OrderSettlementNeverShort(w, id, o.userId);
    HalfUpSign(o.amount);
    HalfUpSymmetric(o.amount);
    HalfUpWhole(0);
    PostShifts(w.book, Settle(o)[0], if o.kind == Sell then 0 else HalfUp(o.amount),
               if o.kind == Sell then -HalfUp(o.amount) else 0);
    OneCall(w.book, Settle(o)[0]);
  }

  /** Marking paid and complaining are the owner's, each in its state, and move no money. */
  lemma MarksMoveNothing(w: World, id: int, user: int)
    requires 0 <= id < |w.orders|
    ensures var o, paid, complaint := w.orders[id], Next(w, Confirm(user, id)), Next(w, Complain(user, id));
            && (paid == if o.status == Accepted && o.userId == user
                        then Some(w.(orders := w.orders[id := o.(status := Paid)])) else None)
            && (complaint == if o.status == Paid && o.userId == user
                             then Some(w.(orders := w.orders[id := o.(status := Complaint)])) else None)
  {
  }
}
