/** What the requests of the mall write, in terms of the cart, the goods and the table of users: prices,
    rebates, stock and sales. */
module MallDetails {
  import opened Ledgers
  import opened Mall
  import opened MallAwards
  import opened MallRuns
  import opened Rounding
  import opened Sums

  ghost function Totals(): Order -> int { (o: Order) => o.total }

  lemma {:induction false} TotalsOfOrders(goods: map<int, Good>, lines: seq<Line>, orders: seq<Order>)
    requires |orders| == |lines|
    requires forall i :: 0 <= i < |lines| ==> lines[i].good in goods && orders[i].total == PriceOf(goods, lines[i])
    ensures SeqSum(orders, Totals()) == CartTotal(goods, lines)
  {
    if lines != [] {
      TotalsOfOrders(goods, lines[..|lines| - 1], orders[..|orders| - 1]);
    }
  }

  /** A purchase writes an unsent order for each line, of count times the good's price, and freezes the sum of
      these totals. */
  lemma OrdersArePriced(u: Setup, s: Shop, buyer: int, coin: string, lines: seq<Line>)
    requires NoDebts(s.book) && forall g :: g in s.goods ==> 0 <= s.goods[g].price
    requires Next(u, s, Pay(buyer, coin, lines, true)).Some?
    ensures var after := Next(u, s, Pay(buyer, coin, lines, true)).value;
            && |after.orders| == |s.orders| + |lines| && s.orders <= after.orders
            && (forall i :: 0 <= i < |lines| ==>
                  && lines[i].good in s.goods
                  && var o, g := after.orders[|s.orders| + i], s.goods[lines[i].good];
                     o == Order(buyer, g.seller, lines[i].good, lines[i].count, lines[i].count * g.price, coin,
                                Unsent, Normal))
            && WalletOf(after.book, Key(buyer, coin))
               == Shifted(WalletOf(s.book, Key(buyer, coin)),
                          -SeqSum(after.orders[|s.orders|..], Totals()), SeqSum(after.orders[|s.orders|..], Totals()))
  {
    PurchaseMovesItsPrice(u, s, buyer, coin, lines);
    var after := Next(u, s, Pay(buyer, coin, lines, true)).value;
    var more := after.orders[|s.orders|..];
    forall i | 0 <= i < |lines|
      ensures lines[i].good in s.goods && more[i] == NewOrder(s, buyer, coin, lines[i])
    {
      assert more[i] == after.orders[|s.orders| + i];
    }
    TotalsOfOrders(s.goods, lines, more);
  }

  /** A percentage of a price is that many hundredths of it. */
  lemma PercentIsHundredths(total: int, percent: int)
    ensures Percent(total, percent) * 100.0 == (total * percent) as real
  {
    assert total as real * (percent as real / 100.0) * 100.0 == total as real * percent as real;
    assert (total * percent) as real == total as real * percent as real;
  }

  /** A part of a price, rounded: nearest to so many hundredths of it. */
  predicate Hundredths(part: int, total: int, percent: int)
  {
    -50 <= part * 100 - total * percent <= 50
  }

  lemma RoundedPercent(total: int, percent: int)
    ensures Hundredths(HalfUp(Percent(total, percent)), total, percent)
  {
    PercentIsHundredths(total, percent);
    HalfUpError(Percent(total, percent));
    var part := HalfUp(Percent(total, percent));
    assert (part * 100) as real == part as real * 100.0;
  }

  /** Rebates by the table of users: a buyer with an inviter who has an inviter too gets its percentage as
      award, and the two get theirs as money. */
  lemma RebatesByTable(u: Setup, s: Shop, id: int, one: int, two: int) returns (mine: int, first: int, second: int)
    requires Sane(s) && Next(u, s, Confirm(id)).Some?
    requires s.orders[id].buyer in u.invites && u.invites[s.orders[id].buyer] == Some(one)
    requires one in u.invites && u.invites[one] == Some(two) && two in u.invites
    ensures var o := s.orders[id];
            && (if 0 <= u.buyRebate then Hundredths(mine, o.total, u.buyRebate) else mine == 0)
            && (if 0 < u.oneLevel then Hundredths(first, o.total, u.oneLevel) else first == 0)
            && (if 0 < u.twoLevel then Hundredths(second, o.total, u.twoLevel) else second == 0)
    ensures forall k ::
              var o, before, after := s.orders[id], WalletOf(s.book, k),
                  WalletOf(Next(u, s, Confirm(id)).value.book, k);
              after == Wallet(before.available + If(k == Key(o.seller, o.coin), o.total)
                                               + If(k == Key(one, o.coin), first) + If(k == Key(two, o.coin), second),
                              before.freeze,
                              before.award + If(k == Key(o.buyer, o.coin), mine - o.total))
  {
    var o := s.orders[id];
    mine := if 0 <= u.buyRebate then HalfUp(Percent(o.total, u.buyRebate)) else 0;
    first := if 0 < u.oneLevel then HalfUp(Percent(o.total, u.oneLevel)) else 0;
    second := if 0 < u.twoLevel then HalfUp(Percent(o.total, u.twoLevel)) else 0;
    RoundedPercent(o.total, u.buyRebate);
    RoundedPercent(o.total, u.oneLevel);
    RoundedPercent(o.total, u.twoLevel);
    forall k
      ensures var before, after := WalletOf(s.book, k), WalletOf(Next(u, s, Confirm(id)).value.book, k);
              after == Wallet(before.available + If(k == Key(o.seller, o.coin), o.total)
                                               + If(k == Key(one, o.coin), first) + If(k == Key(two, o.coin), second),
                              before.freeze,
                              before.award + If(k == Key(o.buyer, o.coin), mine - o.total))
    {
      ConfirmSharesOut(u, s, id, k);
    }
  }

  /** A buyer without an inviter, or whose inviter has none, brings nobody a rebate. */
  lemma NoInviterNoRebates(u: Setup, o: Order)
    requires o.buyer !in u.invites || u.invites[o.buyer] == None
             || (u.invites[o.buyer].value in u.invites && u.invites[u.invites[o.buyer].value] == None)
    ensures Rebates(u, o) == []
  {
  }

  /** Completing an order adds its count to the sales; canceling or taking it back adds it to the stock; no
      other good and no price changes, and sending and returning change no good at all. */
  lemma GoodsChange(u: Setup, s: Shop, step: Step)
    requires !step.Pay? && Next(u, s, step).Some?
    ensures 0 <= step.id < |s.orders|
    ensures var o, after := s.orders[step.id], Next(u, s, step).value;
            if step.Send? || step.Return? then after.goods == s.goods
            else
              && o.good in s.goods
              && var g := s.goods[o.good];
                 after.goods == s.goods[o.good := if step.Confirm? then g.(sales := g.sales + o.count)
                                                  else g.(stock := g.stock + o.count)]
  {
  }

  /** The order that a request is about gets its new status, and no other order changes. */
  lemma OrdersChange(u: Setup, s: Shop, step: Step)
    requires !step.Pay? && Next(u, s, step).Some?
    ensures 0 <= step.id < |s.orders|
    ensures var o := s.orders[step.id];
            Next(u, s, step).value.orders
            == s.orders[step.id := match step
                                   case Send(_) => o.(status := Sent)
                                   case Return(_, _) => o.(returned := Returning)
                                   case ConfirmReturn(_) => o.(returned := Returned)
                                   case CancelUnsent(_) => o.(status := Canceled)
                                   case _ => o.(status := Success)]
  {
  }

  /** Sending is refused only for a sent order; a return only while one is asked for, or without proof for
      an order that is not unsent. */
  lemma SendAndReturn(u: Setup, s: Shop, id: int, proof: bool)
    requires 0 <= id < |s.orders|
    ensures Next(u, s, Send(id)).Some? <==> s.orders[id].status != Sent
    ensures Next(u, s, Return(id, proof)).Some? <==>
              s.orders[id].returned != Returning && (proof || s.orders[id].status == Unsent)
  {
  }
}
