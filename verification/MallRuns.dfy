/** Conservation along runs of the mall: units, money, and what stays frozen. */
module MallRuns {
  import opened Ledgers
  import opened Mall
  import opened Rounding
  import opened Sums

  /** An order holds its units and its money unless it was canceled or returned. */
  predicate Counted(o: Order)
  {
    o.status != Canceled && o.returned != Returned
  }

  ghost function UnitsIn(g: int): Order -> int { (o: Order) => if Counted(o) && o.good == g then o.count else 0 }
  ghost function HeldFor(k: Key): Order -> int { (o: Order) => if Counted(o) && BuyerKey(o) == k then o.total else 0 }

  /** The pieces of a good: in stock, or in orders that were neither canceled nor returned. */
  ghost function Units(s: Shop, g: int): int
  {
    (if g in s.goods then s.goods[g].stock else 0) + SeqSum(s.orders, UnitsIn(g))
  }

  /** The invariant of the mall: nothing is negative, orders are about known goods, and every buyer's
      frozen money is the price of the orders that were neither canceled nor returned. */
  ghost predicate Sane(s: Shop)
  {
    && (forall k :: k in s.book.wallets ==> NonNegative(s.book.wallets[k]))
    && (forall g :: g in s.goods ==> 0 <= s.goods[g].price && 0 <= s.goods[g].stock)
    && (forall o :: o in s.orders ==> 0 < o.count && 0 <= o.total && o.good in s.goods)
    && (forall k :: WalletOf(s.book, k).freeze == SeqSum(s.orders, HeldFor(k)))
  }

  /** The guards that the code leaves out: not to send a canceled order and not to return a returned one. */
  predicate Disciplined(s: Shop, step: Step)
  {
    match step
    case Send(id) => 0 <= id < |s.orders| ==> s.orders[id].status != Canceled || s.orders[id].returned == Returned
    case Return(id, _) => 0 <= id < |s.orders| ==> s.orders[id].returned != Returned || s.orders[id].status == Canceled
    case _ => true
  }

  // ---- units

  lemma {:induction false} LinesAreUnits(lines: seq<Line>, more: seq<Order>, g: int)
    requires |more| == |lines|
    requires forall i :: 0 <= i < |lines| ==>
        more[i].good == lines[i].good && more[i].count == lines[i].count && Counted(more[i])
    ensures SeqSum(more, UnitsIn(g)) == Asked(lines, g)
  {
    if lines != [] {
      LinesAreUnits(lines[..|lines| - 1], more[..|lines| - 1], g);
    }
  }

  lemma PaidUnits(s: Shop, paid: Shop, buyer: int, coin: string, lines: seq<Line>, g: int)
    requires Paid(s, paid, buyer, coin, lines)
    ensures Units(paid, g) == Units(s, g)
  {
    var more := paid.orders[|s.orders|..];
    assert paid.orders == s.orders + more;
    forall i | 0 <= i < |lines|
      ensures more[i].good == lines[i].good && more[i].count == lines[i].count && Counted(more[i])
    {
      assert more[i] == paid.orders[|s.orders| + i] == NewOrder(s, buyer, coin, lines[i]);
    }
    SeqSumConcat(s.orders, more, UnitsIn(g));
    LinesAreUnits(lines, more, g);
    if g !in s.goods {
      forall i | 0 <= i < |lines| ensures lines[i].good != g {
        assert lines[i].good in s.goods;
      }
      NoLines(lines, g);
    }
  }

  lemma PayKeepsUnits(u: Setup, s: Shop, step: Step, g: int)
    requires step.Pay? && Next(u, s, step).Some?
    ensures Units(Next(u, s, step).value, g) == Units(s, g)
  {
    CartGoesThrough(s, step.buyer, step.coin, step.lines);
    var paid := PayLines(s, step.buyer, step.coin, step.lines).value;
    PaidUnits(s, paid, step.buyer, step.coin, step.lines, g);
    assert Units(Next(u, s, step).value, g) == Units(paid, g);
  }

  lemma {:induction false} NoLines(lines: seq<Line>, g: int)
    requires forall i :: 0 <= i < |lines| ==> lines[i].good != g
    ensures Asked(lines, g) == 0
  {
    if lines != [] {
      NoLines(lines[..|lines| - 1], g);
    }
  }

  /** An undisciplined request about an order of the good. */
  predicate Recounts(s: Shop, step: Step, g: int)
  {
    !step.Pay? && 0 <= step.id < |s.orders| && !Disciplined(s, step) && s.orders[step.id].good == g
  }

  /** What the units of a good become: an undisciplined request makes the units of its order count again. */
  lemma UnitsChange(u: Setup, s: Shop, step: Step, g: int)
    requires Next(u, s, step).Some?
    ensures Units(Next(u, s, step).value, g)
         == Units(s, g)
            + if Recounts(s, step, g) then s.orders[step.id].count else 0
  {
    var after := Next(u, s, step).value;
    if step.Pay? {
      PayKeepsUnits(u, s, step, g);
    } else {
      SeqSumUpdate(s.orders, step.id, after.orders[step.id], UnitsIn(g));
    }
  }

  /** Of all requests that succeed, exactly the undisciplined ones change the number of units. */
  lemma UnitsKeptExactly(u: Setup, s: Shop, step: Step)
    requires Sane(s) && Next(u, s, step).Some?
    ensures (forall g :: Units(Next(u, s, step).value, g) == Units(s, g)) <==> Disciplined(s, step)
  {
    forall g
      ensures Units(Next(u, s, step).value, g)
           == Units(s, g)
              + if Recounts(s, step, g) then s.orders[step.id].count else 0
    {
      UnitsChange(u, s, step, g);
    }
    if !step.Pay? {
      var o := s.orders[step.id];
      assert o in s.orders;
      assert Disciplined(s, step) <==> Units(Next(u, s, step).value, o.good) == Units(s, o.good);
    }
  }

  // ---- money

  function Worth(w: Wallet): int
  {
    w.available + w.freeze + w.award
  }

  ghost function WorthIn(b: Book, coin: string): Key -> int
  {
    (k: Key) => if k.coin == coin then Worth(WalletOf(b, k)) else 0
  }

  /** All money of a coin: available, frozen and award, over all users. */
  ghost function AllMoney(b: Book, coin: string): int
  {
    SetSum(b.wallets.Keys, WorthIn(b, coin))
  }

  function Brings(c: Call): int
  {
    HalfUp(c.delta.available) + HalfUp(c.delta.freeze) + HalfUp(c.delta.award)
  }

  ghost function BringsIn(coin: string): Call -> int { (c: Call) => if c.key.coin == coin then Brings(c) else 0 }

  lemma PostBrings(b: Book, c: Call, coin: string)
    requires Post(b, c).Some?
    ensures AllMoney(Post(b, c).value, coin) == AllMoney(b, coin) + BringsIn(coin)(c)
  {
    var after := Post(b, c).value;
    HalfUpWhole(0);
    if c.delta != NO_CHANGE {
      var rest := b.wallets.Keys - {c.key};
      assert after.wallets.Keys - {c.key} == rest;
      SetSumSplit(after.wallets.Keys, c.key, WorthIn(after, coin));
      SetSumSame(rest, WorthIn(b, coin), WorthIn(after, coin));
      if c.key in b.wallets {
        SetSumSplit(b.wallets.Keys, c.key, WorthIn(b, coin));
      } else {
        assert rest == b.wallets.Keys;
      }
    }
  }

  lemma {:induction false} TogetherBrings(b: Book, calls: seq<Call>, coin: string)
    requires PostTogether(b, calls).Some?
    ensures AllMoney(PostTogether(b, calls).value, coin) == AllMoney(b, coin) + SeqSum(calls, BringsIn(coin))
    decreases |calls|
  {
    if calls != [] {
      PostBrings(b, calls[0], coin);
      TogetherBrings(Post(b, calls[0]).value, calls[1..], coin);
      SeqSumConcat([calls[0]], calls[1..], BringsIn(coin));
      SeqSumAppend([], calls[0], BringsIn(coin));
      assert [] + [calls[0]] == [calls[0]] && [calls[0]] + calls[1..] == calls;
    }
  }

  /** The rounded rebates that a request pays out in a coin: only confirming an order pays any. */
  ghost function Minted(u: Setup, s: Shop, step: Step, coin: string): int
  {
    if step.Confirm? && 0 <= step.id < |s.orders| then SeqSum(Rebates(u, s.orders[step.id]), BringsIn(coin)) else 0
  }

  lemma SettledBrings(s: Shop, calls: seq<Call>, id: int, row: Order, restock: int, sold: int, coin: string)
    requires 0 <= id < |s.orders| && Settled(s, calls, id, row, restock, sold).Some?
    ensures AllMoney(Settled(s, calls, id, row, restock, sold).value.book, coin)
         == AllMoney(s.book, coin) + SeqSum(calls, BringsIn(coin))
  {
    TogetherBrings(s.book, calls, coin);
  }

  lemma ConfirmBrings(o: Order, rebates: seq<Call>, coin: string)
    ensures SeqSum(Payment(o) + rebates, BringsIn(coin)) == SeqSum(rebates, BringsIn(coin))
  {
    SeqSumConcat(Payment(o), rebates, BringsIn(coin));
    PaymentIsNeutral(o, coin);
  }

  lemma RefundIsNeutral(k: Key, total: int, coin: string)
    ensures SeqSum([MoveBack(k, total)], BringsIn(coin)) == 0
  {
    HalfUpSymmetric(total as real);
    HalfUpWhole(0);
    SeqSumAppend([], MoveBack(k, total), BringsIn(coin));
    assert [] + [MoveBack(k, total)] == [MoveBack(k, total)];
  }

  lemma FreezeIsNeutral(k: Key, total: int, coin: string)
    ensures BringsIn(coin)(MoveToFrozen(k, total)) == 0
  {
    HalfUpSymmetric(total as real);
    HalfUpWhole(0);
  }

  /** No request creates or destroys money except for the rebates, whoever buyer, seller and referrers are. */
  lemma MoneyOnlyFromRebates(u: Setup, s: Shop, step: Step, coin: string)
    requires Next(u, s, step).Some?
    ensures AllMoney(Next(u, s, step).value.book, coin) == AllMoney(s.book, coin) + Minted(u, s, step, coin)
  {
    match step
    case Pay(buyer, c, lines, _) =>
      PostBrings(s.book, MoveToFrozen(Key(buyer, c), TotalOf(lines, s.goods)), coin);
      FreezeIsNeutral(Key(buyer, c), TotalOf(lines, s.goods), coin);
    case Send(_) =>
    case Return(_, _) =>
    case Confirm(id) =>
      var o := s.orders[id];
      SettledBrings(s, Payment(o) + Rebates(u, o), id, o.(status := Success), 0, o.count, coin);
      ConfirmBrings(o, Rebates(u, o), coin);
    case ConfirmReturn(id) =>
      var o := s.orders[id];
      SettledBrings(s, [MoveBack(BuyerKey(o), o.total)], id, o.(returned := Returned), o.count, 0, coin);
      RefundIsNeutral(BuyerKey(o), o.total, coin);
    case CancelUnsent(id) =>
      var o := s.orders[id];
      SettledBrings(s, [MoveBack(BuyerKey(o), o.total)], id, o.(status := Canceled), o.count, 0, coin);
      RefundIsNeutral(BuyerKey(o), o.total, coin);
  }

  lemma PaymentIsNeutral(o: Order, coin: string)
    ensures SeqSum(Payment(o), BringsIn(coin)) == 0
  {
    var take, give := TakeAward(BuyerKey(o), o.total), Give(SellerKey(o), o.total as real);
    WholeBrings(o.total);
    assert BringsIn(coin)(take) + BringsIn(coin)(give) == 0;
    SeqSumAppend([], take, BringsIn(coin));
    SeqSumAppend([take], give, BringsIn(coin));
    assert [] + [take] == [take] && [take] + [give] == Payment(o);
  }

  lemma WholeBrings(total: int)
    ensures forall k :: Brings(TakeAward(k, total)) == -total && Brings(Give(k, total as real)) == total
  {
    HalfUpWhole(total);
    HalfUpWhole(-total);
    HalfUpWhole(0);
  }

  /** What a run mints in a coin. */
  ghost function MintedBy(u: Setup, s: Shop, steps: seq<Step>, coin: string): int
  {
    if steps == [] then 0 else
      var before, step := Run(u, s, steps[..|steps| - 1]), steps[|steps| - 1];
      MintedBy(u, s, steps[..|steps| - 1], coin)
          + if Next(u, before, step).Some? then Minted(u, before, step, coin) else 0
  }

  lemma {:induction false} RunMoney(u: Setup, s: Shop, steps: seq<Step>, coin: string)
    ensures AllMoney(Run(u, s, steps).book, coin) == AllMoney(s.book, coin) + MintedBy(u, s, steps, coin)
  {
    if steps != [] {
      var before, step := Run(u, s, steps[..|steps| - 1]), steps[|steps| - 1];
      RunMoney(u, s, steps[..|steps| - 1], coin);
      if Next(u, before, step).Some? {
        MoneyOnlyFromRebates(u, before, step, coin);
      }
    }
  }

  // ---- the invariant

  lemma PostFreezes(b: Book, c: Call, k: Key)
    requires Post(b, c).Some?
    ensures WalletOf(Post(b, c).value, k).freeze == WalletOf(b, k).freeze
        + if c.key == k then HalfUp(c.delta.freeze) else 0
    ensures (forall q :: q in b.wallets ==> NonNegative(b.wallets[q])) ==>
              forall q :: q in Post(b, c).value.wallets ==> NonNegative(Post(b, c).value.wallets[q])
  {
    HalfUpWhole(0);
  }

  /** A transaction whose calls freeze nothing leaves all frozen money alone. */
  lemma NothingFrozen(b: Book, calls: seq<Call>)
    requires PostTogether(b, calls).Some? && forall i :: 0 <= i < |calls| ==> calls[i].delta.freeze == 0.0
    requires forall k :: k in b.wallets ==> NonNegative(b.wallets[k])
    ensures forall k :: WalletOf(PostTogether(b, calls).value, k).freeze == WalletOf(b, k).freeze
    ensures forall k :: k in PostTogether(b, calls).value.wallets ==>
        NonNegative(PostTogether(b, calls).value.wallets[k])
  {
    TogetherMoves(b, calls);
    HalfUpWhole(0);
    forall k ensures WalletOf(PostTogether(b, calls).value, k).freeze == WalletOf(b, k).freeze {
      assert In(WalletOf(PostTogether(b, calls).value, k), Freeze)
          == In(WalletOf(b, k), Freeze) + SeqSum(calls, Moves(k, Freeze));
      AllZero(calls, Moves(k, Freeze));
    }
  }

  lemma {:induction false} AllZero<T>(s: seq<T>, f: T -> int)
    requires forall x :: x in s ==> f(x) == 0
    ensures SeqSum(s, f) == 0
  {
    if s != [] {
      AllZero(s[..|s| - 1], f);
    }
  }

  lemma {:induction false} LinesAreHeld(goods: map<int, Good>, buyer: int, coin: string, lines: seq<Line>,
                                          more: seq<Order>, k: Key)
    requires |more| == |lines|
    requires forall i :: 0 <= i < |lines| ==>
               lines[i].good in goods && Counted(more[i])
               && BuyerKey(more[i]) == Key(buyer, coin) && more[i].total == PriceOf(goods, lines[i])
    ensures SeqSum(more, HeldFor(k)) == if k == Key(buyer, coin) then CartTotal(goods, lines) else 0
  {
    if lines != [] {
      LinesAreHeld(goods, buyer, coin, lines[..|lines| - 1], more[..|lines| - 1], k);
    }
  }

  lemma PaidHeld(s: Shop, paid: Shop, buyer: int, coin: string, lines: seq<Line>, k: Key)
    requires Paid(s, paid, buyer, coin, lines)
    ensures SeqSum(paid.orders, HeldFor(k))
         == SeqSum(s.orders, HeldFor(k)) + if k == Key(buyer, coin) then CartTotal(s.goods, lines) else 0
  {
    var more := paid.orders[|s.orders|..];
    assert paid.orders == s.orders + more;
    forall i | 0 <= i < |lines| ensures lines[i].good in s.goods && more[i] == NewOrder(s, buyer, coin, lines[i]) {
      assert more[i] == paid.orders[|s.orders| + i];
    }
    SeqSumConcat(s.orders, more, HeldFor(k));
    LinesAreHeld(s.goods, buyer, coin, lines, more, k);
  }

  lemma PaidRowsSane(s: Shop, paid: Shop, buyer: int, coin: string, lines: seq<Line>)
    requires Sane(s) && Paid(s, paid, buyer, coin, lines) && Served(s.goods, lines)
    ensures forall g :: g in paid.goods ==> 0 <= paid.goods[g].price && 0 <= paid.goods[g].stock
    ensures forall o :: o in paid.orders ==> 0 < o.count && 0 <= o.total && o.good in paid.goods
  {
    forall g | g in paid.goods ensures 0 <= paid.goods[g].price && 0 <= paid.goods[g].stock {
      if forall i :: 0 <= i < |lines| ==> lines[i].good != g {
        NoLines(lines, g);
      }
    }
    forall o | o in paid.orders ensures 0 < o.count && 0 <= o.total && o.good in paid.goods {
      var j :| 0 <= j < |paid.orders| && paid.orders[j] == o;
      if j < |s.orders| {
        assert s.orders[j] == o && s.orders[j] in s.orders;
      } else {
        var i := j - |s.orders|;
        assert paid.orders[|s.orders| + i] == NewOrder(s, buyer, coin, lines[i]);
        NonNegativeProduct(lines[i].count, s.goods[lines[i].good].price);
      }
    }
  }

  lemma PayKeepsSane(u: Setup, s: Shop, step: Step)
    requires Sane(s) && step.Pay? && Next(u, s, step).Some?
    ensures Sane(Next(u, s, step).value)
  {
    var after := Next(u, s, step).value;
    var call := MoveToFrozen(Key(step.buyer, step.coin), TotalOf(step.lines, s.goods));
    var paid := PayLines(s, step.buyer, step.coin, step.lines).value;
    CartGoesThrough(s, step.buyer, step.coin, step.lines);
    PaidRowsSane(s, paid, step.buyer, step.coin, step.lines);
    TotalIsSum(step.lines, s.goods);
    HalfUpWhole(TotalOf(step.lines, s.goods));
    PostKeepsNonNegative(s.book, call);
    forall k ensures WalletOf(after.book, k).freeze == SeqSum(after.orders, HeldFor(k)) {
      PostFreezes(s.book, call, k);
      PaidHeld(s, paid, step.buyer, step.coin, step.lines, k);
    }
  }

  /** Rewriting one row keeps the rest of the invariant, if the money moves with the row. */
  lemma RowKeepsSane(s: Shop, after: Shop, id: int)
    requires Sane(s) && 0 <= id < |s.orders| && |after.orders| == |s.orders|
    requires after.orders == s.orders[id := after.orders[id]]
    requires var row, was := after.orders[id], s.orders[id];
             row.(status := was.status, returned := was.returned) == was
    requires forall k :: k in after.book.wallets ==> NonNegative(after.book.wallets[k])
    requires after.goods.Keys == s.goods.Keys
             && forall g :: g in s.goods ==>
                 after.goods[g].price == s.goods[g].price && s.goods[g].stock <= after.goods[g].stock
    requires forall k :: WalletOf(after.book, k).freeze - WalletOf(s.book, k).freeze
                         == HeldFor(k)(after.orders[id]) - HeldFor(k)(s.orders[id])
    ensures Sane(after)
  {
    forall k ensures WalletOf(after.book, k).freeze == SeqSum(after.orders, HeldFor(k)) {
      SeqSumUpdate(s.orders, id, after.orders[id], HeldFor(k));
    }
    assert s.orders[id] in s.orders;
    forall o | o in after.orders ensures 0 < o.count && 0 <= o.total && o.good in after.goods {
      var i :| 0 <= i < |after.orders| && after.orders[i] == o;
      assert i != id ==> s.orders[i] == o && s.orders[i] in s.orders;
    }
  }

  lemma RefundKeepsSane(u: Setup, s: Shop, step: Step)
    requires Sane(s) && (step.ConfirmReturn? || step.CancelUnsent?) && Next(u, s, step).Some?
    ensures Sane(Next(u, s, step).value)
  {
    var after := Next(u, s, step).value;
    var o := s.orders[step.id];
    var call := MoveBack(BuyerKey(o), o.total);
    assert PostTogether(s.book, [call]) == Post(s.book, call);
    HalfUpWhole(-o.total);
    assert o in s.orders;
    forall k
      ensures WalletOf(after.book, k).freeze - WalletOf(s.book, k).freeze
              == HeldFor(k)(after.orders[step.id]) - HeldFor(k)(o)
    {
      PostFreezes(s.book, call, k);
    }
    PostFreezes(s.book, call, BuyerKey(o));
    RowKeepsSane(s, after, step.id);
  }

  lemma NothingFrozenByConfirming(u: Setup, o: Order)
    ensures forall i :: 0 <= i < |Payment(o) + Rebates(u, o)| ==> (Payment(o) + Rebates(u, o))[i].delta.freeze == 0.0
  {
  }

  lemma ConfirmKeepsSane(u: Setup, s: Shop, step: Step)
    requires Sane(s) && step.Confirm? && Next(u, s, step).Some?
    ensures Sane(Next(u, s, step).value)
  {
    var after := Next(u, s, step).value;
    NothingFrozenByConfirming(u, s.orders[step.id]);
    NothingFrozen(s.book, Payment(s.orders[step.id]) + Rebates(u, s.orders[step.id]));
    RowKeepsSane(s, after, step.id);
  }

  lemma NextKeepsSane(u: Setup, s: Shop, step: Step)
    requires Sane(s) && Disciplined(s, step) && Next(u, s, step).Some?
    ensures Sane(Next(u, s, step).value)
  {
    match step
    case Pay(_, _, _, _) => PayKeepsSane(u, s, step);
    case Send(id) => RowKeepsSane(s, Next(u, s, step).value, id);
    case Return(id, _) => RowKeepsSane(s, Next(u, s, step).value, id);
    case Confirm(_) => ConfirmKeepsSane(u, s, step);
    case _ => RefundKeepsSane(u, s, step);
  }

  ghost predicate AllDisciplined(u: Setup, s: Shop, steps: seq<Step>)
  {
    steps == []
    || (AllDisciplined(u, s, steps[..|steps| - 1])
        && Disciplined(Run(u, s, steps[..|steps| - 1]), steps[|steps| - 1]))
  }

  /** Along every disciplined run the invariant holds and no piece of any good is lost or invented. */
  lemma {:induction false} RunKeepsSane(u: Setup, s: Shop, steps: seq<Step>)
    requires Sane(s) && AllDisciplined(u, s, steps)
    ensures Sane(Run(u, s, steps)) && forall g :: Units(Run(u, s, steps), g) == Units(s, g)
  {
    if steps != [] {
      var before, step := Run(u, s, steps[..|steps| - 1]), steps[|steps| - 1];
      RunKeepsSane(u, s, steps[..|steps| - 1]);
      if Next(u, before, step).Some? {
        NextKeepsSane(u, before, step);
        UnitsKeptExactly(u, before, step);
      }
    }
  }

  // ---- settling

  /** A live order can always be refunded. */
  lemma RefundNeverShort(u: Setup, s: Shop, id: int)
    requires Sane(s) && 0 <= id < |s.orders|
    ensures var o := s.orders[id];
            Live(o) <==> (o.status == Unsent || o.status == Sent) && (o.returned == Normal || o.returned == Returning)
    ensures Next(u, s, ConfirmReturn(id)).Some? <==> Live(s.orders[id])
    ensures Next(u, s, CancelUnsent(id)).Some? <==> Live(s.orders[id])
  {
    if Live(s.orders[id]) {
      var o := s.orders[id];
      assert o in s.orders;
      SeqSumAtLeast(s.orders, id, HeldFor(BuyerKey(o)));
      FrozenCanMoveBack(s.book, BuyerKey(o), o.total);
    }
  }

  lemma FrozenCanMoveBack(book: Book, k: Key, total: int)
    requires 0 <= total <= WalletOf(book, k).freeze && NonNegative(WalletOf(book, k))
    ensures PostTogether(book, [MoveBack(k, total)]).Some?
  {
    HalfUpWhole(total);
    HalfUpWhole(-total);
    HalfUpWhole(0);
    assert PostTogether(book, [MoveBack(k, total)]) == Post(book, MoveBack(k, total));
  }

  lemma {:induction false} IncreasesSucceed(b: Book, calls: seq<Call>)
    requires forall k :: k in b.wallets ==> NonNegative(b.wallets[k])
    requires forall i :: 0 <= i < |calls| ==>
               0.0 <= calls[i].delta.available && 0.0 <= calls[i].delta.freeze && 0.0 <= calls[i].delta.award
    ensures PostTogether(b, calls).Some?
    decreases |calls|
  {
    if calls != [] {
      HalfUpSign(calls[0].delta.available);
      HalfUpSign(calls[0].delta.freeze);
      HalfUpSign(calls[0].delta.award);
      IncreasesSucceed(Post(b, calls[0]).value, calls[1..]);
    }
  }

  lemma RebatesIncrease(u: Setup, o: Order)
    requires 0 <= o.total
    ensures forall i :: 0 <= i < |Rebates(u, o)| ==>
              0.0 <= Rebates(u, o)[i].delta.available && 0.0 <= Rebates(u, o)[i].delta.freeze
              && 0.0 <= Rebates(u, o)[i].delta.award
  {
    if u.buyRebate >= 0 { TimesSign(o.total as real, u.buyRebate as real / 100.0); }
    if u.oneLevel > 0 { TimesSign(o.total as real, u.oneLevel as real / 100.0); }
    if u.twoLevel > 0 { TimesSign(o.total as real, u.twoLevel as real / 100.0); }
  }
}
