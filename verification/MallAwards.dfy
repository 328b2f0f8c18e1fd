/** Confirming a mall order: it is paid from award balances, what that means for completed orders, and
    what it means for runs that start without award balances. */
module MallAwards {
  import opened Ledgers
  import opened Mall
  import opened MallRuns
  import opened Rounding
  import opened Sums

  // ---- when an order can be confirmed

  lemma ConfirmIsPayment(u: Setup, s: Shop, id: int)
    ensures Next(u, s, Confirm(id)).Some? <==>
            && 0 <= id < |s.orders| && Live(s.orders[id]) && s.orders[id].returned == Normal
            && SellerHasShop(u, s, s.orders[id])
            && PostTogether(s.book, Payment(s.orders[id]) + Rebates(u, s.orders[id])).Some?
  {
  }

  lemma ConfirmGoesThrough(u: Setup, s: Shop, id: int)
    requires forall k :: k in s.book.wallets ==> NonNegative(s.book.wallets[k])
    requires 0 <= id < |s.orders| ==> 0 <= s.orders[id].total
    ensures Next(u, s, Confirm(id)).Some? <==>
            && 0 <= id < |s.orders| && Live(s.orders[id]) && s.orders[id].returned == Normal
            && SellerHasShop(u, s, s.orders[id])
            && s.orders[id].total <= WalletOf(s.book, BuyerKey(s.orders[id])).award
  {
    ConfirmIsPayment(u, s, id);
    if 0 <= id < |s.orders| {
      PaymentNeedsAward(u, s.book, s.orders[id]);
    }
  }

  /** Confirming takes the price from the buyer's award balance, not from the money frozen for it: it
      succeeds exactly when the award balance covers the price. */
  lemma ConfirmNeedsAward(u: Setup, s: Shop, id: int)
    requires Sane(s)
    ensures Next(u, s, Confirm(id)).Some? <==>
            && 0 <= id < |s.orders| && Live(s.orders[id]) && s.orders[id].returned == Normal
            && SellerHasShop(u, s, s.orders[id])
            && s.orders[id].total <= WalletOf(s.book, BuyerKey(s.orders[id])).award
  {
    TotalsNotNegative(s);
    ConfirmGoesThrough(u, s, id);
  }

  lemma TotalsNotNegative(s: Shop)
    requires Sane(s)
    ensures forall i :: 0 <= i < |s.orders| ==> 0 <= s.orders[i].total
  {
    forall i | 0 <= i < |s.orders| ensures 0 <= s.orders[i].total {
      assert s.orders[i] in s.orders;
    }
  }

  lemma PaymentNeedsAward(u: Setup, book: Book, o: Order)
    requires 0 <= o.total && forall k :: k in book.wallets ==> NonNegative(book.wallets[k])
    ensures PostTogether(book, Payment(o) + Rebates(u, o)).Some? <==> o.total <= WalletOf(book, BuyerKey(o)).award
  {
    HalfUpWhole(-o.total);
    HalfUpWhole(0);
    var calls := Payment(o) + Rebates(u, o);
    assert calls[0] == TakeAward(BuyerKey(o), o.total);
    if o.total <= WalletOf(book, BuyerKey(o)).award {
      var next := Post(book, calls[0]).value;
      RebatesIncrease(u, o);
      assert calls[1] == Give(SellerKey(o), o.total as real);
      assert forall i :: 2 <= i < |calls| ==> calls[i] == Rebates(u, o)[i - 2];
      IncreasesSucceed(next, calls[1..]);
    }
  }

  /** What the rebates bring to a wallet: the buyer's award, the first and the second referrer's money. */
  function BuyerRebate(u: Setup, o: Order, k: Key): int
  {
    if k == BuyerKey(o) && FindsReferrers(u, o) && u.buyRebate >= 0 then HalfUp(Percent(o.total, u.buyRebate)) else 0
  }

  function OneShare(u: Setup, o: Order, k: Key): int
  {
    if k.coin == o.coin && IsOne(u, o, k.user) && u.oneLevel > 0 then HalfUp(Percent(o.total, u.oneLevel)) else 0
  }

  function TwoShare(u: Setup, o: Order, k: Key): int
  {
    if k.coin == o.coin && IsTwo(u, o, k.user) && u.twoLevel > 0 then HalfUp(Percent(o.total, u.twoLevel)) else 0
  }

  /** Who gets what when an order is confirmed, whoever buyer, seller and referrers are: the same person
      in several of these parts gets the sum. */
  lemma ConfirmSharesOut(u: Setup, s: Shop, id: int, k: Key)
    requires Sane(s) && Next(u, s, Confirm(id)).Some?
    ensures var o, done := s.orders[id], Next(u, s, Confirm(id)).value;
            var before, after := WalletOf(s.book, k), WalletOf(done.book, k);
            && done.orders == s.orders[id := o.(status := Success)]
            && after.freeze == before.freeze
            && after.award == before.award - (if k == BuyerKey(o) then o.total else 0) + BuyerRebate(u, o, k)
            && after.available
               == before.available + (if k == SellerKey(o) then o.total else 0) + OneShare(u, o, k) + TwoShare(u, o, k)
  {
    var o := s.orders[id];
    var after := Next(u, s, Confirm(id)).value;
    ConfirmMoves(u, s.book, after.book, o, k, Available);
    ConfirmMoves(u, s.book, after.book, o, k, Freeze);
    ConfirmMoves(u, s.book, after.book, o, k, Award);
    PaymentMoves(o, k);
    RebatesMove(u, o, k);
  }

  lemma ConfirmMoves(u: Setup, book: Book, after: Book, o: Order, k: Key, bucket: Bucket)
    requires forall k :: k in book.wallets ==> NonNegative(book.wallets[k])
    requires PostTogether(book, Payment(o) + Rebates(u, o)) == Some(after)
    ensures In(WalletOf(after, k), bucket)
         == In(WalletOf(book, k), bucket)
            + SeqSum(Payment(o), Moves(k, bucket)) + SeqSum(Rebates(u, o), Moves(k, bucket))
  {
    TogetherMoves(book, Payment(o) + Rebates(u, o));
    SeqSumConcat(Payment(o), Rebates(u, o), Moves(k, bucket));
  }

  lemma PaymentMoves(o: Order, k: Key)
    ensures SeqSum(Payment(o), Moves(k, Available)) == if k == SellerKey(o) then o.total else 0
    ensures SeqSum(Payment(o), Moves(k, Award)) == if k == BuyerKey(o) then -o.total else 0
    ensures SeqSum(Payment(o), Moves(k, Freeze)) == 0
  {
    HalfUpWhole(-o.total);
    HalfUpWhole(o.total);
    HalfUpWhole(0);
    forall bucket
      ensures SeqSum(Payment(o), Moves(k, bucket))
           == Moved(TakeAward(BuyerKey(o), o.total), k, bucket) + Moved(Give(SellerKey(o), o.total as real), k, bucket)
    {
      WhenSum(true, TakeAward(BuyerKey(o), o.total), k, bucket);
      SeqSumAppend([TakeAward(BuyerKey(o), o.total)], Give(SellerKey(o), o.total as real), Moves(k, bucket));
      assert [TakeAward(BuyerKey(o), o.total)] + [Give(SellerKey(o), o.total as real)] == Payment(o);
    }
  }

  lemma WhenSum(c: bool, call: Call, k: Key, bucket: Bucket)
    ensures SeqSum(When(c, call), Moves(k, bucket)) == if c then Moved(call, k, bucket) else 0
  {
    SeqSumAppend([], call, Moves(k, bucket));
    assert [] + [call] == [call];
  }

  /** Three optional gifts, an award and two sums of money. */
  lemma GiftsMove(a: bool, b: bool, c: bool, mine: Key, one: Key, two: Key, x: real, y: real, z: real, k: Key)
    ensures var calls := When(a, GiveAward(mine, x)) + When(b, Give(one, y)) + When(c, Give(two, z));
            && SeqSum(calls, Moves(k, Freeze)) == 0
            && SeqSum(calls, Moves(k, Award)) == (if a && k == mine then HalfUp(x) else 0)
            && SeqSum(calls, Moves(k, Available))
               == (if b && k == one then HalfUp(y) else 0) + (if c && k == two then HalfUp(z) else 0)
  {
    HalfUpWhole(0);
    GiftsSum(When(a, GiveAward(mine, x)), When(b, Give(one, y)), When(c, Give(two, z)), k);
    forall bucket
      ensures SeqSum(When(a, GiveAward(mine, x)), Moves(k, bucket))
           == if a then Moved(GiveAward(mine, x), k, bucket) else 0
      ensures SeqSum(When(b, Give(one, y)), Moves(k, bucket)) == if b then Moved(Give(one, y), k, bucket) else 0
      ensures SeqSum(When(c, Give(two, z)), Moves(k, bucket)) == if c then Moved(Give(two, z), k, bucket) else 0
    {
      WhenSum(a, GiveAward(mine, x), k, bucket);
      WhenSum(b, Give(one, y), k, bucket);
      WhenSum(c, Give(two, z), k, bucket);
    }
  }

  lemma GiftsSum(a: seq<Call>, b: seq<Call>, c: seq<Call>, k: Key)
    ensures forall bucket ::
              SeqSum(a + b + c, Moves(k, bucket))
              == SeqSum(a, Moves(k, bucket)) + SeqSum(b, Moves(k, bucket)) + SeqSum(c, Moves(k, bucket))
  {
    forall bucket
      ensures SeqSum(a + b + c, Moves(k, bucket))
           == SeqSum(a, Moves(k, bucket)) + SeqSum(b, Moves(k, bucket)) + SeqSum(c, Moves(k, bucket))
    {
      SeqSumConcat(a + b, c, Moves(k, bucket));
      SeqSumConcat(a, b, Moves(k, bucket));
    }
  }

  lemma RebatesMove(u: Setup, o: Order, k: Key)
    ensures SeqSum(Rebates(u, o), Moves(k, Freeze)) == 0
    ensures SeqSum(Rebates(u, o), Moves(k, Award)) == BuyerRebate(u, o, k)
    ensures SeqSum(Rebates(u, o), Moves(k, Available)) == OneShare(u, o, k) + TwoShare(u, o, k)
  {
    GiftsOfMove(u, o, Percent(o.total, u.buyRebate), Percent(o.total, u.oneLevel), Percent(o.total, u.twoLevel), k);
  }

  lemma GiftsOfMove(u: Setup, o: Order, mine: real, first: real, second: real, k: Key)
    ensures SeqSum(Gifts(u, o, mine, first, second), Moves(k, Freeze)) == 0
    ensures SeqSum(Gifts(u, o, mine, first, second), Moves(k, Award))
         == if k == BuyerKey(o) && FindsReferrers(u, o) && u.buyRebate >= 0 then HalfUp(mine) else 0
    ensures SeqSum(Gifts(u, o, mine, first, second), Moves(k, Available))
         == (if k.coin == o.coin && IsOne(u, o, k.user) && u.oneLevel > 0 then HalfUp(first) else 0)
            + (if k.coin == o.coin && IsTwo(u, o, k.user) && u.twoLevel > 0 then HalfUp(second) else 0)
  {
    if FindsReferrers(u, o) {
      var one := u.invites[o.buyer].value;
      var two := if one in u.invites then u.invites[one].value else one;
      GiftsMove(u.buyRebate >= 0, u.oneLevel > 0 && IsOne(u, o, one), u.twoLevel > 0 && IsTwo(u, o, two),
                BuyerKey(o), Key(one, o.coin), Key(two, o.coin), mine, first, second, k);
    }
  }

  // ---- runs that start without award balances

  /** A request to the mall, or a call of another service, none of which touches award balances. */
  datatype Event = Request(step: Step) | OtherService(call: Call)

  function EventStep(u: Setup, s: Shop, e: Event): Shop
  {
    match e
    case Request(step) => if Next(u, s, step).Some? then Next(u, s, step).value else s
    case OtherService(call) =>
      if call.delta.award != 0.0 then s
      else
        match Post(s.book, call)
        case None => s
        case Some(book) => s.(book := book)
  }

  function Events(u: Setup, s: Shop, events: seq<Event>): Shop
  {
    if events == [] then s else EventStep(u, Events(u, s, events[..|events| - 1]), events[|events| - 1])
  }

  predicate AwardFree(b: Book)
  {
    forall k :: k in b.wallets ==> NonNegative(b.wallets[k]) && b.wallets[k].award == 0
  }

  /** No award balance anywhere, and whatever has been completed cost nothing. */
  ghost predicate NoAward(s: Shop)
  {
    && AwardFree(s.book)
    && (forall g :: g in s.goods ==> 0 <= s.goods[g].price)
    && (forall o :: o in s.orders ==> 0 <= o.total && (o.status == Success ==> o.total == 0))
  }

  /** An order that costs nothing moves nothing: neither payment nor rebates. */
  lemma FreeOrderMovesNothing(u: Setup, o: Order, k: Key)
    requires o.total == 0
    ensures forall bucket :: SeqSum(Payment(o) + Rebates(u, o), Moves(k, bucket)) == 0
  {
    HalfUpWhole(0);
    PaymentMoves(o, k);
    RebatesMove(u, o, k);
    assert Percent(0, u.buyRebate) == 0.0 && Percent(0, u.oneLevel) == 0.0 && Percent(0, u.twoLevel) == 0.0;
    forall bucket ensures SeqSum(Payment(o) + Rebates(u, o), Moves(k, bucket)) == 0 {
      SeqSumConcat(Payment(o), Rebates(u, o), Moves(k, bucket));
      match bucket
      case Available =>
      case Freeze =>
      case Award =>
    }
  }

  /** Without award balances an order can be confirmed exactly when it costs nothing. */
  lemma OnlyFreeOrdersConfirm(u: Setup, s: Shop, id: int)
    requires NoAward(s)
    ensures Next(u, s, Confirm(id)).Some? <==>
            && 0 <= id < |s.orders| && Live(s.orders[id]) && s.orders[id].returned == Normal
            && SellerHasShop(u, s, s.orders[id]) && s.orders[id].total == 0
  {
    if 0 <= id < |s.orders| {
      assert s.orders[id] in s.orders;
    }
    ConfirmGoesThrough(u, s, id);
  }

  lemma CallKeepsAwardFree(b: Book, c: Call)
    requires AwardFree(b) && Post(b, c).Some? && c.delta.award == 0.0
    ensures AwardFree(Post(b, c).value)
  {
    HalfUpWhole(0);
  }

  lemma ConfirmKeepsNoAward(u: Setup, s: Shop, id: int)
    requires NoAward(s) && Next(u, s, Confirm(id)).Some?
    ensures NoAward(Next(u, s, Confirm(id)).value)
  {
    var o, after := s.orders[id], Next(u, s, Confirm(id)).value;
    OnlyFreeOrdersConfirm(u, s, id);
    TogetherMoves(s.book, Payment(o) + Rebates(u, o));
    forall k | k in after.book.wallets ensures after.book.wallets[k].award == 0 {
      FreeOrderMovesNothing(u, o, k);
      assert In(WalletOf(after.book, k), Award) == In(WalletOf(s.book, k), Award);
    }
    RowsStayFree(s, after, id);
  }

  lemma RowsStayFree(s: Shop, after: Shop, id: int)
    requires NoAward(s) && 0 <= id < |s.orders| == |after.orders| && after.orders == s.orders[id := after.orders[id]]
    requires after.orders[id].total == s.orders[id].total
    requires after.orders[id].status == Success ==> s.orders[id].total == 0
    ensures forall o :: o in after.orders ==> 0 <= o.total && (o.status == Success ==> o.total == 0)
  {
    assert s.orders[id] in s.orders;
    forall o | o in after.orders ensures 0 <= o.total && (o.status == Success ==> o.total == 0) {
      var i :| 0 <= i < |after.orders| && after.orders[i] == o;
      assert i != id ==> s.orders[i] == o && s.orders[i] in s.orders;
    }
  }

  lemma PayKeepsNoAward(u: Setup, s: Shop, step: Step)
    requires NoAward(s) && step.Pay? && Next(u, s, step).Some?
    ensures NoAward(Next(u, s, step).value)
  {
    var paid, after := PayLines(s, step.buyer, step.coin, step.lines).value, Next(u, s, step).value;
    CallKeepsAwardFree(s.book, MoveToFrozen(Key(step.buyer, step.coin), TotalOf(step.lines, s.goods)));
    CartGoesThrough(s, step.buyer, step.coin, step.lines);
    forall o | o in after.orders ensures 0 <= o.total && (o.status == Success ==> o.total == 0) {
      var i :| 0 <= i < |after.orders| && after.orders[i] == o;
      if i < |s.orders| {
        assert s.orders[i] == o && s.orders[i] in s.orders;
      } else {
        var line := step.lines[i - |s.orders|];
        assert paid.orders[|s.orders| + (i - |s.orders|)] == NewOrder(s, step.buyer, step.coin, line);
        NonNegativeProduct(line.count, s.goods[line.good].price);
      }
    }
  }

  lemma RefundKeepsNoAward(u: Setup, s: Shop, step: Step)
    requires NoAward(s) && (step.ConfirmReturn? || step.CancelUnsent?) && Next(u, s, step).Some?
    ensures NoAward(Next(u, s, step).value)
  {
    var o := s.orders[step.id];
    assert PostTogether(s.book, [MoveBack(BuyerKey(o), o.total)]) == Post(s.book, MoveBack(BuyerKey(o), o.total));
    CallKeepsAwardFree(s.book, MoveBack(BuyerKey(o), o.total));
    RowsStayFree(s, Next(u, s, step).value, step.id);
  }

  /** No event creates an award balance, whether or not the mall's requests are disciplined. */
  lemma EventKeepsNoAward(u: Setup, s: Shop, e: Event)
    requires NoAward(s)
    ensures NoAward(EventStep(u, s, e))
  {
    match e
    case OtherService(call) =>
      if call.delta.award == 0.0 && Post(s.book, call).Some? {
        CallKeepsAwardFree(s.book, call);
      }
    case Request(step) =>
      if Next(u, s, step).Some? {
        match step
        case Pay(_, _, _, _) => PayKeepsNoAward(u, s, step);
        case Confirm(id) => ConfirmKeepsNoAward(u, s, id);
        case Send(id) => RowsStayFree(s, Next(u, s, step).value, id);
        case Return(id, _) =>
          assert s.orders[id] in s.orders;
          RowsStayFree(s, Next(u, s, step).value, id);
        case _ => RefundKeepsNoAward(u, s, step);
      }
  }

  lemma {:induction false} EventsKeepNoAward(u: Setup, s: Shop, events: seq<Event>)
    requires NoAward(s)
    ensures NoAward(Events(u, s, events))
  {
    if events != [] {
      EventsKeepNoAward(u, s, events[..|events| - 1]);
      EventKeepsNoAward(u, Events(u, s, events[..|events| - 1]), events[|events| - 1]);
    }
  }

  lemma {:induction false} RunKeepsNoAward(u: Setup, s: Shop, steps: seq<Step>)
    requires NoAward(s)
    ensures NoAward(Run(u, s, steps))
  {
    if steps != [] {
      RunKeepsNoAward(u, s, steps[..|steps| - 1]);
      EventKeepsNoAward(u, Run(u, s, steps[..|steps| - 1]), Request(steps[|steps| - 1]));
    }
  }

  /** So from a ledger without award balances, whatever the mall and the other services are asked, an
      order can be confirmed exactly when it costs nothing, and none that costs anything ever is. */
  lemma PricedOrdersNeverComplete(u: Setup, s: Shop, events: seq<Event>, id: int)
    requires NoAward(s)
    ensures var after := Events(u, s, events);
            && (Next(u, after, Confirm(id)).Some? <==>
                  && 0 <= id < |after.orders| && Live(after.orders[id]) && after.orders[id].returned == Normal
                  && SellerHasShop(u, after, after.orders[id]) && after.orders[id].total == 0)
            && (0 <= id < |after.orders| && after.orders[id].status == Success ==> after.orders[id].total == 0)
  {
    EventsKeepNoAward(u, s, events);
    var after := Events(u, s, events);
    OnlyFreeOrdersConfirm(u, after, id);
    if 0 <= id < |after.orders| {
      assert after.orders[id] in after.orders;
    }
  }

  /** ... and a confirmation pays nothing to anybody: no seller is paid and no rebate is given. */
  lemma ConfirmingPaysNobody(u: Setup, s: Shop, events: seq<Event>, id: int)
    requires NoAward(s) && Next(u, Events(u, s, events), Confirm(id)).Some?
    ensures var before := Events(u, s, events);
            forall k :: WalletOf(Next(u, before, Confirm(id)).value.book, k) == WalletOf(before.book, k)
  {
    var before := Events(u, s, events);
    EventsKeepNoAward(u, s, events);
    OnlyFreeOrdersConfirm(u, before, id);
    var o, after := before.orders[id], Next(u, before, Confirm(id)).value;
    TogetherMoves(before.book, Payment(o) + Rebates(u, o));
    forall k ensures WalletOf(after.book, k) == WalletOf(before.book, k) {
      FreeOrderMovesNothing(u, o, k);
      assert In(WalletOf(after.book, k), Available) == In(WalletOf(before.book, k), Available);
      assert In(WalletOf(after.book, k), Freeze) == In(WalletOf(before.book, k), Freeze);
      assert In(WalletOf(after.book, k), Award) == In(WalletOf(before.book, k), Award);
    }
  }

  // ---- runs that start with some

  ghost function LiveFor(k: Key): Order -> int { (o: Order) => if Live(o) && BuyerKey(o) == k then o.total else 0 }
  ghost function DoneFor(k: Key): Order -> int
  {
    (o: Order) => if o.status == Success && o.returned != Returned && BuyerKey(o) == k then o.total else 0
  }

  lemma {:induction false} HeldSplits(orders: seq<Order>, k: Key)
    ensures SeqSum(orders, HeldFor(k)) == SeqSum(orders, LiveFor(k)) + SeqSum(orders, DoneFor(k))
  {
    if orders != [] {
      HeldSplits(orders[..|orders| - 1], k);
    }
  }

  /** The price of a completed order is not unfrozen: the frozen money of a buyer is what the live
      orders need if and only if the buyer's completed orders cost nothing. */
  lemma CompletedStaysFrozen(s: Shop, k: Key)
    requires Sane(s)
    ensures WalletOf(s.book, k).freeze == SeqSum(s.orders, LiveFor(k)) + SeqSum(s.orders, DoneFor(k))
    ensures WalletOf(s.book, k).freeze == SeqSum(s.orders, LiveFor(k)) <==>
              forall o :: o in s.orders && o.status == Success && o.returned != Returned && BuyerKey(o) == k ==>
                  o.total == 0
  {
    HeldSplits(s.orders, k);
    if o :| o in s.orders && o.status == Success && o.returned != Returned && BuyerKey(o) == k && o.total != 0 {
      var i :| 0 <= i < |s.orders| && s.orders[i] == o;
      SeqSumAtLeast(s.orders, i, DoneFor(k));
    } else {
      AllZero(s.orders, DoneFor(k));
    }
  }

  /** Such orders exist once a buyer holds an award that covers the price: paying and confirming leaves
      a completed order, a paid seller, and the price in the buyer's frozen money. */
  lemma CompletedButFrozen(u: Setup, s: Shop, buyer: int, coin: string, line: Line)
    requires Sane(s) && line.good in s.goods && s.goods[line.good].seller in u.shops
    requires 0 < line.count <= s.goods[line.good].stock
    requires var w := WalletOf(s.book, Key(buyer, coin));
             PriceOf(s.goods, line) <= w.available && PriceOf(s.goods, line) <= w.award
    ensures var id, price, o := |s.orders|, PriceOf(s.goods, line), NewOrder(s, buyer, coin, line);
            var after := Run(u, s, [Pay(buyer, coin, [line], true), Confirm(id)]);
            var mine, seller := Key(buyer, coin), Key(s.goods[line.good].seller, coin);
            var w, v := WalletOf(s.book, mine), WalletOf(s.book, seller);
            && after.orders == s.orders + [o.(status := Success)]
            && WalletOf(after.book, mine).freeze == w.freeze + price
            && WalletOf(after.book, mine).award == w.award - price + BuyerRebate(u, o, mine)
            && WalletOf(after.book, mine).available
               == w.available - (if mine == seller then 0 else price) + OneShare(u, o, mine) + TwoShare(u, o, mine)
            && WalletOf(after.book, seller).available
               == v.available + (if mine == seller then 0 else price) + OneShare(u, o, seller) + TwoShare(u, o, seller)
  {
    var pay, id := Pay(buyer, coin, [line], true), |s.orders|;
    PayForOne(u, s, buyer, coin, line);
    var paid := Next(u, s, pay).value;
    NextKeepsSane(u, s, pay);
    RunLast(u, s, [], pay);
    RunLast(u, s, [pay], Confirm(id));
    assert [pay] + [Confirm(id)] == [pay, Confirm(id)] && [] + [pay] == [pay];
    ConfirmNeedsAward(u, paid, id);
    ConfirmSharesOut(u, paid, id, Key(buyer, coin));
    ConfirmSharesOut(u, paid, id, SellerKey(paid.orders[id]));
  }

  /** A ledger with such an award: buyer 1 holds 100 units and an award of 100, seller 2 sells one piece
      of good 7 at 100; nobody invited either. */
  function Seeded(): Shop
  {
    Shop(Book(map[Key(1, "BSTS") := Wallet(100, 0, 100)], []), [], map[7 := Good(2, 100, 1, 0)])
  }

  lemma SeededBuyerStaysFrozen(u: Setup)
    requires u.invites == map[1 := None, 2 := None] && u.shops == {2}
    ensures var after := Run(u, Seeded(), [Pay(1, "BSTS", [Line(7, 1)], true), Confirm(0)]);
            && after.orders == [Order(1, 2, 7, 1, 100, "BSTS", Success, Normal)]
            && WalletOf(after.book, Key(1, "BSTS")) == Wallet(0, 100, 0)
            && WalletOf(after.book, Key(2, "BSTS")).available == 100
  {
    var s := Seeded();
    assert |s.orders| == 0;
    CompletedButFrozen(u, s, 1, "BSTS", Line(7, 1));
  }
}
