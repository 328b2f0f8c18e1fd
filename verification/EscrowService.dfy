/** PlatOrderService and SendCoinService as they are written: each request checks its guards, moves
    money through the ledger and updates a row, inside one transaction. */
module EscrowServices {
  import opened Escrow
  import opened EscrowRuns
  import opened Ledgers
  import opened Rounding
  import opened Sums

  class EscrowService {
    const ledger: Ledger
    var orders: seq<PlatOrder>
    var sends: seq<SendCoin>
    ghost var outside: seq<Flow>

    ghost function State(): World
      reads this, ledger
    {
      World(ledger.Books(), orders, sends, outside)
    }

    constructor (ledger: Ledger)
      requires ledger.Books() == Book(map[], [])
      ensures this.ledger == ledger && State() == START
    {
      this.ledger := ledger;
      orders, sends, outside := [], [], [];
    }

    // ---- PlatOrderService

    method PlaceDeposit(user: int, coin: string, amount: real, price: real, hasBank: bool,
                        plat: Option<PlatConfig>, now: int)
      returns (id: Option<int>)
      modifies this
      ensures var step := Deposit(user, coin, amount, price, hasBank, plat, now);
              && id.Some? == Next(old(State()), step).Some?
              && State() == (if id.Some? then Next(old(State()), step).value else old(State()))
      ensures id.Some? ==> id.value == |old(orders)| && orders[id.value].status.Accepted?
    {
      if amount <= 0.0 || !hasBank || plat.None? { return None; }
      if price < plat.value.buyPrice { return None; }
      if now < plat.value.startTime || now > plat.value.endTime { return None; }
      orders := orders + [PlatOrder(user, coin, Buy, amount, plat.value.buyPrice, Accepted)];
      return Some(|orders| - 1);
    }

    method PlaceWithdraw(user: int, coin: string, amount: real, price: real, bankUser: Option<int>,
                         plat: Option<PlatConfig>, now: int) returns (id: Option<int>)
      modifies this, ledger
      ensures var step := Withdraw(user, coin, amount, price, bankUser, plat, now);
              && id.Some? == Next(old(State()), step).Some?
              && State() == (if id.Some? then Next(old(State()), step).value else old(State()))
      ensures id.Some? ==> id.value == |old(orders)| && orders[id.value].status.Accepted?
    {
      if amount <= 0.0 || bankUser.None? || bankUser.value != user || plat.None? { return None; }
      if price > plat.value.sellPrice { return None; }
      if now < plat.value.startTime || now > plat.value.endTime { return None; }
      var atStart := orders;
      orders := orders + [PlatOrder(user, coin, Sell, amount, price, Accepted)];
      var ok := ledger.ChangeUserCoin(Key(user, coin), Delta(-amount, amount, 0.0));
      if !ok {
        orders := atStart;
        return None;
      }
      return Some(|orders| - 1);
    }

    method ConfirmPaid(user: int, id: int) returns (ok: bool)
      modifies this
      ensures ok == Next(old(State()), Confirm(user, id)).Some?
      ensures State() == if ok then Next(old(State()), Confirm(user, id)).value else old(State())
    {
      if !(0 <= id < |orders|) || orders[id].status != Accepted || orders[id].userId != user { return false; }
      orders := orders[id := orders[id].(status := Paid)];
      return true;
    }

    method CancelOrder(user: int, id: int) returns (ok: bool)
      modifies this, ledger
      ensures ok == Next(old(State()), Cancel(user, id)).Some?
      ensures State() == if ok then Next(old(State()), Cancel(user, id)).value else old(State())
    {
      if !(0 <= id < |orders|) || orders[id].status != Accepted || orders[id].userId != user { return false; }
      ok := GiveBack(id);
    }

    method ComplainAbout(user: int, id: int) returns (ok: bool)
      modifies this
      ensures ok == Next(old(State()), Complain(user, id)).Some?
      ensures State() == if ok then Next(old(State()), Complain(user, id)).value else old(State())
    {
      if !(0 <= id < |orders|) || orders[id].status != Paid || orders[id].userId != user { return false; }
      orders := orders[id := orders[id].(status := Complaint)];
      return true;
    }

    method AdminConfirmOrder(id: int) returns (ok: bool)
      modifies this, ledger
      ensures ok == Next(old(State()), AdminConfirm(id)).Some?
      ensures State() == if ok then Next(old(State()), AdminConfirm(id)).value else old(State())
    {
      if !(0 <= id < |orders|) { return false; }
      var o := orders[id];
      if o.kind == Sell {
        if o.status != Accepted && o.status != Complaint { return false; }
        OneCall(ledger.Books(), SpendFrozenCall(OrderKey(o), o.amount));
        ok := ledger.ChangeUserCoin(Key(o.userId, o.coin), Delta(0.0, -o.amount, 0.0));
      } else {
        if o.status != Paid && o.status != Accepted && o.status != Complaint { return false; }
        OneCall(ledger.Books(), CreditCall(OrderKey(o), o.amount));
        ok := ledger.ChangeUserCoin(Key(o.userId, o.coin), Delta(o.amount, 0.0, 0.0));
      }
      if ok {
        orders := orders[id := o.(status := Done)];
      }
    }

    method AdminCancelOrder(id: int) returns (ok: bool)
      modifies this, ledger
      ensures ok == Next(old(State()), AdminCancel(id)).Some?
      ensures State() == if ok then Next(old(State()), AdminCancel(id)).value else old(State())
    {
      if !(0 <= id < |orders|) { return false; }
      var status := orders[id].status;
      if status != Accepted && status != Complaint && status != Paid { return false; }
      ok := GiveBack(id);
    }

    /** The common end of both cancellations: a sale gets its frozen money back. */
    method GiveBack(id: int) returns (ok: bool)
      requires 0 <= id < |orders|
      modifies this, ledger
      ensures ok == WithOrder(old(State()), Refund(old(orders)[id]), id, Canceled).Some?
      ensures var canceled := WithOrder(old(State()), Refund(old(orders)[id]), id, Canceled);
              State() == if ok then canceled.value else old(State())
    {
      var o := orders[id];
      if o.kind == Sell {
        OneCall(ledger.Books(), UnfreezeCall(OrderKey(o), o.amount));
        ok := ledger.ChangeUserCoin(Key(o.userId, o.coin), Delta(o.amount, -o.amount, 0.0));
        if !ok { return; }
      }
      orders := orders[id := o.(status := Canceled)];
      ok := true;
    }

    // ---- SendCoinService

    method ApplyTransferOut(user: int, coin: string, amount: real, toPlatform: bool, config: Option<CoinConfig>,
                            changeRate: real)
      returns (ok: bool)
      modifies this, ledger
      ensures var step := TransferOut(user, coin, amount, toPlatform, config, changeRate);
              && ok == Next(old(State()), step).Some?
              && State() == (if ok then Next(old(State()), step).value else old(State()))
    {
      if amount <= 0.0 || Key(user, coin) !in ledger.wallets || toPlatform || config.None? { return false; }
      if amount < config.value.withdrawMin || amount > config.value.withdrawMax { return false; }
      var fee := 0.0;
      if config.value.transferFeeSelect == 0 {
        fee := Times(amount, config.value.withdrawFeeRate);
      } else if config.value.transferFeeSelect == 1 {
        return false;
      }
      fee := Times(fee, changeRate);
      ghost var s := SendCoin(user, coin, amount, fee, Applying, true);
      ok := MoveLegs(user, coin, amount, fee, Freezing, s);
      if ok {
        sends := sends + [SendCoin(user, coin, amount, fee, Applying, true)];
      }
    }

    method PassTransfer(id: int, answer: Answer) returns (ok: bool)
      modifies this, ledger
      ensures ok == Next(old(State()), CheckPass(id, answer)).Some?
      ensures State() == if ok then Next(old(State()), CheckPass(id, answer)).value else old(State())
    {
      if !(0 <= id < |sends|) || sends[id].status != Applying { return false; }
      var s := sends[id];
      var wallets, bills := ledger.wallets, ledger.bills;
      ok := MoveLegs(s.userId, s.coin, s.amount, s.fee, Spending, s);
      if !ok { return; }
      if answer == NoTxid {
        ledger.wallets, ledger.bills := wallets, bills;
        return false;
      }
      sends := sends[id := s.(status := if answer == Timeout then Other else Passed)];
    }

    method FailTransfer(id: int) returns (ok: bool)
      modifies this, ledger
      ensures ok == Next(old(State()), CheckFail(id)).Some?
      ensures State() == if ok then Next(old(State()), CheckFail(id)).value else old(State())
    {
      if !(0 <= id < |sends|) || sends[id].status != Applying { return false; }
      var s := sends[id];
      ok := MoveLegs(s.userId, s.coin, s.amount, s.fee, Unfreezing, s);
      if ok {
        sends := sends[id := s.(status := Failed)];
      }
    }

    /** The two ledger calls of a withdrawal, the fee in BSTS first; a failure of the second undoes the
        first. */
    method MoveLegs(user: int, coin: string, amount: real, fee: real, move: Move, ghost s: SendCoin) returns (ok: bool)
      requires s.userId == user && s.coin == coin && s.amount == amount && s.fee == fee
      modifies ledger
      ensures var calls, books := Legs(s, CallOf(move)), old(ledger.Books());
              && ok == PostTogether(books, calls).Some?
              && ledger.Books() == if ok then PostTogether(books, calls).value else books
    {
      ghost var leg := CallOf(move);
      ghost var main := leg(SendKey(s), s.amount);
      var wallets, bills := ledger.wallets, ledger.bills;
      if fee > 0.0 {
        ghost var feeCall := leg(FeeKey(s), s.fee);
        assert Legs(s, leg) == [feeCall, main];
        ok := ledger.ChangeUserCoin(Key(user, BSTS), DeltaOf(move, fee));
        if !ok { return; }
        TwoCalls(old(ledger.Books()), feeCall, main);
      } else {
        assert Legs(s, leg) == [main];
        OneCall(ledger.Books(), main);
      }
      ok := ledger.ChangeUserCoin(Key(user, coin), DeltaOf(move, amount));
      if !ok {
        ledger.wallets, ledger.bills := wallets, bills;
      }
    }

    method TransferToUser(user: int, coin: string, toUser: int, amount: real, config: Option<CoinConfig>,
                          changeRate: real, platCoin: string) returns (ok: bool)
      modifies this, ledger
      ensures var step := TransferInner(user, coin, toUser, amount, config, changeRate, platCoin);
              && ok == Next(old(State()), step).Some?
              && State() == (if ok then Next(old(State()), step).value else old(State()))
    {
      if amount <= 0.0 || config.None? || config.value.transferEnable != 1 { return false; }
      if amount < config.value.transferMin || amount > config.value.transferMax { return false; }
      var fee := 0.0;
      if config.value.transferFeeSelect == 0 {
        fee := Times(amount, config.value.transferFeeRate);
      } else if config.value.transferFeeSelect == 1 {
        return false;
      }
      fee := Times(fee, changeRate);
      ok := MoveBetween(user, coin, toUser, amount, platCoin, fee);
      if !ok { return; }
      sends := sends + [SendCoin(user, coin, amount, fee, Passed, false)];
      outside := outside + [Flow(Key(user, coin), HalfUp(-amount)), Flow(Key(user, platCoin), HalfUp(-fee)),
                            Flow(Key(toUser, coin), HalfUp(amount))];
    }

    /** The three ledger calls of a transfer between users, in one transaction. */
    method MoveBetween(user: int, coin: string, toUser: int, amount: real, platCoin: string, fee: real)
      returns (ok: bool)
      modifies ledger
      ensures var calls := [CreditCall(Key(user, coin), -amount), CreditCall(Key(user, platCoin), -fee),
                            CreditCall(Key(toUser, coin), amount)];
              && ok == PostTogether(old(ledger.Books()), calls).Some?
              && ledger.Books() == (if ok then PostTogether(old(ledger.Books()), calls).value else old(ledger.Books()))
    {
      var wallets, bills := ledger.wallets, ledger.bills;
      ThreeCalls(ledger.Books(), CreditCall(Key(user, coin), -amount), CreditCall(Key(user, platCoin), -fee),
                 CreditCall(Key(toUser, coin), amount));
      ok := ledger.ChangeUserCoin(Key(user, coin), Delta(-amount, 0.0, 0.0));
      if ok {
        ok := ledger.ChangeUserCoin(Key(user, platCoin), Delta(-fee, 0.0, 0.0));
        if ok {
          ok := ledger.ChangeUserCoin(Key(toUser, coin), Delta(amount, 0.0, 0.0));
        }
      }
      if !ok {
        ledger.wallets, ledger.bills := wallets, bills;
      }
    }
  }
}
