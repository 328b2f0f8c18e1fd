/** MallOrderService as it is written: loops over the cart, ledger calls and row updates in one
    transaction per request, and the closing of a seller's orders, which goes on after failures. */
module MallServices {
  import opened Ledgers
  import opened Mall
  import opened MallClose
  import opened Sums

  class MallService {
    const u: Setup
    const ledger: Ledger
    var orders: seq<Order>
    var goods: map<int, Good>

    constructor (u: Setup, ledger: Ledger, goods: map<int, Good>)
      ensures this.u == u && this.ledger == ledger && State() == Shop(ledger.Books(), [], goods)
    {
      this.u, this.ledger, this.goods, orders := u, ledger, goods, [];
    }

    ghost function State(): Shop
      reads this, ledger
    {
      Shop(ledger.Books(), orders, goods)
    }

    /** payOnceOrder: the order row, and the stock lowered by the count. */
    method PayOnceOrder(buyer: int, coin: string, line: Line) returns (ok: bool, totalPrice: int)
      modifies this`orders, this`goods
      ensures ok == PayLine(old(State()), buyer, coin, line).Some?
      ensures State() == if ok then PayLine(old(State()), buyer, coin, line).value else old(State())
      ensures ok ==> totalPrice == PriceOf(old(goods), line)
    {
      totalPrice := 0;
      if line.count <= 0 || line.good !in goods { return false, 0; }
      var goodInfo := goods[line.good];
      if goodInfo.stock < line.count { return false, 0; }
      totalPrice := line.count * goodInfo.price;
      orders := orders + [Order(buyer, goodInfo.seller, line.good, line.count, totalPrice, coin, Unsent, Normal)];
      goods := goods[line.good := goodInfo.(stock := goodInfo.stock - line.count)];
      ok := true;
    }

    /** payOrder: every line, then the summed price is frozen; any failure undoes all of it. */
    method PayOrder(buyer: int, coin: string, lines: seq<Line>, rateKnown: bool) returns (ok: bool)
      modifies this, ledger
      ensures ok == Next(u, old(State()), Pay(buyer, coin, lines, rateKnown)).Some?
      ensures State() == if ok then Next(u, old(State()), Pay(buyer, coin, lines, rateKnown)).value else old(State())
    {
      if !rateKnown { return false; }
      var atStart, goodsAtStart := orders, goods;
      var totalPrice;
      ok, totalPrice := PayEachOnce(buyer, coin, lines);
      if ok {
        ok := ledger.ChangeUserCoin(Key(buyer, coin), Delta(-(totalPrice as real), totalPrice as real, 0.0));
      }
      if !ok {
        orders, goods := atStart, goodsAtStart;
      }
    }

    /** The loop of payOrder over the cart, adding up the price. */
    method PayEachOnce(buyer: int, coin: string, lines: seq<Line>) returns (ok: bool, totalPrice: int)
      modifies this`orders, this`goods
      ensures ok == PayLines(old(State()), buyer, coin, lines).Some?
      ensures ok ==> PayLines(old(State()), buyer, coin, lines) == Some(State())
      ensures ok ==> totalPrice == TotalOf(lines, old(goods))
    {
      ghost var start := State();
      totalPrice := 0;
      assert lines[..0] == [];
      for i := 0 to |lines|
        invariant PayLines(start, buyer, coin, lines[..i]) == Some(State())
        invariant totalPrice == TotalOf(lines[..i], start.goods)
      {
        assert lines[..i + 1][..i] == lines[..i];
        PricesStay(start, buyer, coin, lines[..i], lines[i]);
        var price;
        ok, price := PayOnceOrder(buyer, coin, lines[i]);
        if !ok {
          NotPayable(start, buyer, coin, lines, i + 1);
          return;
        }
        totalPrice := totalPrice + price;
      }
      assert lines[..|lines|] == lines;
      ok := true;
    }

    method SendOrder(id: int) returns (ok: bool)
      modifies this`orders
      ensures ok == Next(u, old(State()), Send(id)).Some?
      ensures State() == if ok then Next(u, old(State()), Send(id)).value else old(State())
    {
      if !(0 <= id < |orders|) || orders[id].status == Sent { return false; }
      orders := orders[id := orders[id].(status := Sent)];
      ok := true;
    }

    method ReturnOrder(id: int, proof: bool) returns (ok: bool)
      modifies this`orders
      ensures ok == Next(u, old(State()), Return(id, proof)).Some?
      ensures State() == if ok then Next(u, old(State()), Return(id, proof)).value else old(State())
    {
      if !(0 <= id < |orders|) || orders[id].returned == Returning { return false; }
      if orders[id].status != Unsent && !proof { return false; }
      orders := orders[id := orders[id].(returned := Returning)];
      ok := true;
    }

    method ConfirmReturnOrder(id: int) returns (ok: bool)
      modifies this, ledger
      ensures ok == Next(u, old(State()), ConfirmReturn(id)).Some?
      ensures State() == if ok then Next(u, old(State()), ConfirmReturn(id)).value else old(State())
    {
      if !(0 <= id < |orders|) { return false; }
      var o := orders[id];
      if o.status == Success || o.status == Canceled || o.returned == Returned { return false; }
      ok := GiveBack(id, o.(returned := Returned));
    }

    method CancelUnsendOrder(id: int) returns (ok: bool)
      modifies this, ledger
      ensures ok == Next(u, old(State()), CancelUnsent(id)).Some?
      ensures State() == if ok then Next(u, old(State()), CancelUnsent(id)).value else old(State())
    {
      if !(0 <= id < |orders|) { return false; }
      var o := orders[id];
      if o.status == Success || o.status == Canceled || o.returned == Returned { return false; }
      ok := GiveBack(id, o.(status := Canceled));
    }

    /** The refund that both share: money, row and stock. */
    method GiveBack(id: int, row: Order) returns (ok: bool)
      requires 0 <= id < |orders|
      requires row.(status := orders[id].status, returned := orders[id].returned) == orders[id]
      modifies this, ledger
      ensures var settled := Settled(old(State()), [MoveBack(BuyerKey(row), row.total)], id, row, row.count, 0);
              ok == settled.Some? && State() == if ok then settled.value else old(State())
    {
      var calls := [MoveBack(BuyerKey(row), row.total)];
      if row.good !in goods { return false; }
      ok := Transact(calls);
      if !ok { return; }
      orders := orders[id := row];
      goods := goods[row.good := goods[row.good].(stock := goods[row.good].stock + row.count)];
    }

    method ConfirmOrder(id: int) returns (ok: bool)
      modifies this, ledger
      ensures ok == Next(u, old(State()), Confirm(id)).Some?
      ensures State() == if ok then Next(u, old(State()), Confirm(id)).value else old(State())
    {
      if !(0 <= id < |orders|) { return false; }
      var o := orders[id];
      if o.status == Success || o.status == Canceled || o.returned == Returned || o.returned != Normal { return false; }
      if o.good !in goods || goods[o.good].seller !in u.shops { return false; }
      var calls := [TakeAward(Key(o.buyer, o.coin), o.total), Give(Key(o.seller, o.coin), o.total as real)];
      var rebates := RebatesFor(o);
      calls := calls + rebates;
      assert calls == Payment(o) + Rebates(u, o);
      ok := Transact(calls);
      if !ok { return; }
      orders := orders[id := o.(status := Success)];
      goods := goods[o.good := goods[o.good].(sales := goods[o.good].sales + o.count)];
    }

    /** The rebates, when looking up the referrers does not break off. */
    method RebatesFor(o: Order) returns (rebates: seq<Call>)
      ensures rebates == Rebates(u, o)
    {
      rebates := [];
      if o.buyer in u.invites && u.invites[o.buyer].Some? {
        var one := u.invites[o.buyer].value;
        if one !in u.invites || u.invites[one].Some? {
          if u.buyRebate >= 0 {
            rebates := rebates + [GiveAward(Key(o.buyer, o.coin), Percent(o.total, u.buyRebate))];
          }
          if u.oneLevel > 0 && one in u.invites {
            rebates := rebates + [Give(Key(one, o.coin), Percent(o.total, u.oneLevel))];
          }
          if u.twoLevel > 0 && one in u.invites && u.invites[one].value in u.invites {
            rebates := rebates + [Give(Key(u.invites[one].value, o.coin), Percent(o.total, u.twoLevel))];
          }
        }
      }
    }

    /** Ledger calls in one transaction. */
    method Transact(calls: seq<Call>) returns (ok: bool)
      modifies ledger
      ensures ok == PostTogether(old(ledger.Books()), calls).Some?
      ensures ledger.Books() == if ok then PostTogether(old(ledger.Books()), calls).value else old(ledger.Books())
    {
      var wallets, bills := ledger.wallets, ledger.bills;
      var i := 0;
      while i < |calls|
        invariant 0 <= i <= |calls|
        invariant PostTogether(old(ledger.Books()), calls) == PostTogether(ledger.Books(), calls[i..])
      {
        assert calls[i..][1..] == calls[i + 1..];
        ok := ledger.ChangeUserCoin(calls[i].key, calls[i].delta);
        if !ok {
          ledger.wallets, ledger.bills := wallets, bills;
          return;
        }
        i := i + 1;
      }
      ok := true;
    }

    /** The queries for the orders of a seller. */
    method SelectOrders(loop: Loop, seller: int) returns (ids: seq<int>)
      ensures ids == Query(u, loop, seller, orders)
    {
      ids := [];
      for i := 0 to |orders|
        invariant ids == Query(u, loop, seller, orders[..i])
      {
        assert orders[..i + 1][..i] == orders[..i];
        if Selects(u, loop, seller, orders[i]) {
          ids := ids + [i];
        }
      }
      assert orders[..|orders|] == orders;
    }

    /** One loop of closeOrderByUserId: a failing settlement is logged and the loop goes on. */
    method SettleSelected(loop: Loop, seller: int)
      modifies this, ledger
      ensures State() == RunLoop(u, old(State()), loop, seller)
    {
      var ids := SelectOrders(loop, seller);
      ghost var steps := StepsFor(loop, ids);
      assert steps[..0] == [];
      for i := 0 to |ids|
        invariant State() == Run(u, old(State()), steps[..i])
      {
        assert steps[..i + 1] == steps[..i] + [StepFor(loop, ids[i])];
        RunLast(u, old(State()), steps[..i], StepFor(loop, ids[i]));
        var ok;
        match loop
        case CancelLoop => ok := CancelUnsendOrder(ids[i]);
        case ReturnLoop => ok := ConfirmReturnOrder(ids[i]);
        case ConfirmLoop => ok := ConfirmOrder(ids[i]);
      }
      assert steps[..|ids|] == steps;
    }

    method CloseOrderByUserId(seller: int)
      modifies this, ledger
      ensures State() == Close(u, old(State()), seller)
    {
      SettleSelected(CancelLoop, seller);
      SettleSelected(ReturnLoop, seller);
      SettleSelected(ConfirmLoop, seller);
    }
  }

  /** Paying for lines changes no price. */
  lemma {:induction false} PricesStay(s: Shop, buyer: int, coin: string, lines: seq<Line>, line: Line)
    requires PayLines(s, buyer, coin, lines).Some?
    ensures PriceOf(PayLines(s, buyer, coin, lines).value.goods, line) == PriceOf(s.goods, line)
  {
    if lines != [] {
      PricesStay(s, buyer, coin, lines[..|lines| - 1], line);
    }
  }

  /** A line that cannot be paid for fails the whole cart. */
  lemma {:induction false} NotPayable(s: Shop, buyer: int, coin: string, lines: seq<Line>, n: nat)
    requires n <= |lines| && PayLines(s, buyer, coin, lines[..n]).None?
    ensures PayLines(s, buyer, coin, lines).None?
    decreases |lines|
  {
    if n < |lines| {
      assert lines[..|lines| - 1][..n] == lines[..n];
      NotPayable(s, buyer, coin, lines[..|lines| - 1], n);
    } else {
      assert lines[..n] == lines;
    }
  }
}
