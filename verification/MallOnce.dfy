/** How often a mall order is settled: at most once under the guard that sending and returning lack, and
    what happens without it. */
module MallOnce {
  import opened Ledgers
  import opened Mall
  import opened MallRuns
  import opened Rounding
  import opened Sums

  /** The guard: not to send a completed or canceled order, and not to return a returned one. */
  predicate Guarded(s: Shop, step: Step)
  {
    match step
    case Send(id) => 0 <= id < |s.orders| ==> s.orders[id].status != Success && s.orders[id].status != Canceled
    case Return(id, _) => 0 <= id < |s.orders| ==> s.orders[id].returned != Returned
    case _ => true
  }

  /** No order came to two ends. */
  ghost predicate OneEnd(s: Shop)
  {
    forall i :: 0 <= i < |s.orders| ==>
      !((s.orders[i].status == Success || s.orders[i].status == Canceled) && s.orders[i].returned == Returned)
  }

  predicate Settles(step: Step, i: int)
  {
    (step.Confirm? || step.ConfirmReturn? || step.CancelUnsent?) && step.id == i
  }

  /** A successful settlement is of a live order and ends it. */
  lemma SettlingEnds(u: Setup, s: Shop, step: Step, i: int)
    requires Next(u, s, step).Some? && Settles(step, i)
    ensures 0 <= i < |s.orders| == |Next(u, s, step).value.orders|
    ensures Live(s.orders[i]) && !Live(Next(u, s, step).value.orders[i])
  {
  }

  /** Paying appends orders and touches none. */
  lemma PayAppends(u: Setup, s: Shop, step: Step)
    requires step.Pay? && Next(u, s, step).Some?
    ensures var after := Next(u, s, step).value;
            && s.orders <= after.orders
            && forall i :: |s.orders| <= i < |after.orders| ==>
                Live(after.orders[i]) && after.orders[i].returned == Normal
  {
    var after := Next(u, s, step).value;
    CartGoesThrough(s, step.buyer, step.coin, step.lines);
    var paid := PayLines(s, step.buyer, step.coin, step.lines).value;
    forall i | |s.orders| <= i < |after.orders|
      ensures Live(after.orders[i]) && after.orders[i].returned == Normal
    {
      var j := i - |s.orders|;
      assert paid.orders[|s.orders| + j] == NewOrder(s, step.buyer, step.coin, step.lines[j]);
    }
  }

  /** Exactly the requests outside the guard bring a settled order back to life. */
  lemma RevivesExactly(u: Setup, s: Shop, step: Step)
    requires OneEnd(s) && Next(u, s, step).Some?
    ensures |s.orders| <= |Next(u, s, step).value.orders|
    ensures (exists i :: 0 <= i < |s.orders| && !Live(s.orders[i]) && Live(Next(u, s, step).value.orders[i]))
            <==> !Guarded(s, step)
  {
    var after := Next(u, s, step).value;
    if step.Pay? {
      PayAppends(u, s, step);
    } else {
      assert !Guarded(s, step) ==> !Live(s.orders[step.id]) && Live(after.orders[step.id]);
    }
  }

  lemma GuardKeepsOneEnd(u: Setup, s: Shop, step: Step)
    requires OneEnd(s) && Guarded(s, step) && Next(u, s, step).Some?
    ensures OneEnd(Next(u, s, step).value) && Disciplined(s, step)
  {
    if step.Pay? {
      PayAppends(u, s, step);
    }
  }

  ghost predicate AllGuarded(u: Setup, s: Shop, steps: seq<Step>)
  {
    steps == []
    || (AllGuarded(u, s, steps[..|steps| - 1]) && Guarded(Run(u, s, steps[..|steps| - 1]), steps[|steps| - 1]))
  }

  lemma {:induction false} GuardedRun(u: Setup, s: Shop, steps: seq<Step>)
    requires OneEnd(s) && AllGuarded(u, s, steps)
    ensures OneEnd(Run(u, s, steps)) && |s.orders| <= |Run(u, s, steps).orders|
    ensures Sane(s) ==> Sane(Run(u, s, steps))
  {
    if steps != [] {
      var before, step := Run(u, s, steps[..|steps| - 1]), steps[|steps| - 1];
      GuardedRun(u, s, steps[..|steps| - 1]);
      if Next(u, before, step).Some? {
        GuardKeepsOneEnd(u, before, step);
        RevivesExactly(u, before, step);
        if Sane(s) {
          NextKeepsSane(u, before, step);
        }
      }
    }
  }

  /** How often a run settles the order with id `i`. */
  function Settlements(u: Setup, s: Shop, steps: seq<Step>, i: int): nat
  {
    if steps == [] then 0 else
      var before, step := Run(u, s, steps[..|steps| - 1]), steps[|steps| - 1];
      Settlements(u, s, steps[..|steps| - 1], i) + if Next(u, before, step).Some? && Settles(step, i) then 1 else 0
  }

  predicate LiveIn(s: Shop, i: int)
  {
    0 <= i < |s.orders| && Live(s.orders[i])
  }

  predicate SettledIn(s: Shop, i: int)
  {
    0 <= i < |s.orders| && !Live(s.orders[i])
  }

  /** Under the guard every run settles an order at most once, counting what is settled already: a live
      order at the end has not been, and one that was settled at the start is not settled again. */
  lemma {:induction false} SettledAtMostOnce(u: Setup, s: Shop, steps: seq<Step>, i: int)
    requires OneEnd(s) && AllGuarded(u, s, steps)
    ensures Settlements(u, s, steps, i)
         <= (if SettledIn(s, i) then 0 else 1) - (if LiveIn(Run(u, s, steps), i) then 1 else 0)
    ensures i >= |Run(u, s, steps).orders| ==> Settlements(u, s, steps, i) == 0
  {
    if steps != [] {
      var n := |steps| - 1;
      SettledAtMostOnce(u, s, steps[..n], i);
      GuardedRun(u, s, steps[..n]);
      NoRevival(u, s, Run(u, s, steps[..n]), steps[n], i, Settlements(u, s, steps[..n], i));
    }
  }

  /** One more step of such a run. */
  lemma NoRevival(u: Setup, s: Shop, before: Shop, step: Step, i: int, count: nat)
    requires OneEnd(before) && Guarded(before, step) && |s.orders| <= |before.orders|
    requires count <= (if SettledIn(s, i) then 0 else 1) - (if LiveIn(before, i) then 1 else 0)
    requires i >= |before.orders| ==> count == 0
    ensures var after := if Next(u, before, step).Some? then Next(u, before, step).value else before;
            count + (if Next(u, before, step).Some? && Settles(step, i) then 1 else 0)
            <= (if SettledIn(s, i) then 0 else 1) - (if LiveIn(after, i) then 1 else 0)
            && |before.orders| <= |after.orders|
  {
    if Next(u, before, step).Some? {
      RevivesExactly(u, before, step);
      if Settles(step, i) {
        SettlingEnds(u, before, step, i);
      }
    }
  }

  /** Under the guard a completed order stays completed, and its price stays in its buyer's frozen money. */
  lemma {:induction false} CompletedStays(u: Setup, s: Shop, steps: seq<Step>, i: nat)
    requires Sane(s) && OneEnd(s) && AllGuarded(u, s, steps)
    requires i < |s.orders| && s.orders[i].status == Success
    ensures var after := Run(u, s, steps);
            && i < |after.orders| && after.orders[i].status == Success && after.orders[i].returned != Returned
            && BuyerKey(after.orders[i]) == BuyerKey(s.orders[i]) && after.orders[i].total == s.orders[i].total
            && s.orders[i].total <= WalletOf(after.book, BuyerKey(s.orders[i])).freeze
  {
    GuardedRun(u, s, steps);
    if steps != [] {
      var before, step := Run(u, s, steps[..|steps| - 1]), steps[|steps| - 1];
      CompletedStays(u, s, steps[..|steps| - 1], i);
      if step.Pay? && Next(u, before, step).Some? {
        PayAppends(u, before, step);
      }
    }
    CountedIsFrozen(Run(u, s, steps), i);
  }

  lemma CountedIsFrozen(s: Shop, i: nat)
    requires Sane(s) && i < |s.orders| && Counted(s.orders[i])
    ensures s.orders[i].total <= WalletOf(s.book, BuyerKey(s.orders[i])).freeze
  {
    var f := HeldFor(BuyerKey(s.orders[i]));
    assert forall o :: o in s.orders ==> 0 <= f(o);
    SeqSumAtLeast(s.orders, i, f);
  }

  // ---- without the guard

  lemma RunTwo(u: Setup, s: Shop, s1: Shop, a: Step, b: Step)
    requires Next(u, s, a) == Some(s1) && Next(u, s1, b).Some?
    ensures Run(u, s, [a]) == s1 && Run(u, s, [a, b]) == Next(u, s1, b).value
  {
    RunLast(u, s, [], a);
    RunLast(u, s, [a], b);
    assert [] + [a] == [a] && [a] + [b] == [a, b];
  }

  lemma CancelGives(u: Setup, s: Shop, id: int)
    requires Sane(s) && 0 <= id < |s.orders| && Live(s.orders[id])
    ensures var after, o := Next(u, s, CancelUnsent(id)), s.orders[id];
            var w := WalletOf(s.book, BuyerKey(o));
            && after.Some? && Sane(after.value) && after.value.orders == s.orders[id := o.(status := Canceled)]
            && after.value.goods.Keys == s.goods.Keys
            && (forall g :: Units(after.value, g) == Units(s, g))
            && WalletOf(after.value.book, BuyerKey(o)) == Wallet(w.available + o.total, w.freeze - o.total, w.award)
  {
    RefundNeverShort(u, s, id);
    NextKeepsSane(u, s, CancelUnsent(id));
    RefundGives(s.book, BuyerKey(s.orders[id]), s.orders[id].total);
    UnitsKeptExactly(u, s, CancelUnsent(id));
  }

  lemma BoughtAndCanceled(u: Setup, s: Shop, buyer: int, coin: string, line: Line)
    requires Sane(s) && line.good in s.goods && 0 < line.count <= s.goods[line.good].stock
    requires PriceOf(s.goods, line) <= WalletOf(s.book, Key(buyer, coin)).available
    ensures var id, after := |s.orders|, Run(u, s, [Pay(buyer, coin, [line], true), CancelUnsent(|s.orders|)]);
            && Sane(after) && after.orders == s.orders + [NewOrder(s, buyer, coin, line).(status := Canceled)]
            && Units(after, line.good) == Units(s, line.good)
            && WalletOf(after.book, Key(buyer, coin)) == WalletOf(s.book, Key(buyer, coin))
            && line.good in after.goods
            && Settlements(u, s, [Pay(buyer, coin, [line], true), CancelUnsent(id)], id) == 1
  {
    var id, pay := |s.orders|, Pay(buyer, coin, [line], true);
    PayForOne(u, s, buyer, coin, line);
    var s1 := Next(u, s, pay).value;
    NextKeepsSane(u, s, pay);
    CancelGives(u, s1, id);
    UnitsChange(u, s, pay, line.good);
    RunTwo(u, s, s1, pay, CancelUnsent(id));
    assert [pay, CancelUnsent(id)][..1] == [pay] && [pay][..0] == [];
    assert Settlements(u, s, [pay], id) == 0;
  }

  /** Buying, canceling and then sending: the canceled order counts again, and its units exist twice. */
  lemma CanceledThenSent(u: Setup, s: Shop, buyer: int, coin: string, line: Line)
    requires Sane(s) && line.good in s.goods && 0 < line.count <= s.goods[line.good].stock
    requires PriceOf(s.goods, line) <= WalletOf(s.book, Key(buyer, coin)).available
    ensures var id, w := |s.orders|, WalletOf(s.book, Key(buyer, coin));
            var steps := [Pay(buyer, coin, [line], true), CancelUnsent(id), Send(id)];
            var after := Run(u, s, steps);
            && after.orders == s.orders + [NewOrder(s, buyer, coin, line).(status := Sent)]
            && Units(after, line.good) == Units(s, line.good) + line.count
            && WalletOf(after.book, Key(buyer, coin)) == w
            && (forall k :: k in after.book.wallets ==> NonNegative(after.book.wallets[k]))
            && line.good in after.goods
            && Settlements(u, s, steps, id) == 1
  {
    var id, pay := |s.orders|, Pay(buyer, coin, [line], true);
    BoughtAndCanceled(u, s, buyer, coin, line);
    var s2 := Run(u, s, [pay, CancelUnsent(id)]);
    UnitsChange(u, s2, Send(id), line.good);
    RunLast(u, s, [pay, CancelUnsent(id)], Send(id));
    assert [pay, CancelUnsent(id)] + [Send(id)] == [pay, CancelUnsent(id), Send(id)];
    assert [pay, CancelUnsent(id), Send(id)][..2] == [pay, CancelUnsent(id)];
  }

  lemma RefundGives(book: Book, k: Key, total: int)
    requires PostTogether(book, [MoveBack(k, total)]).Some?
    ensures var w, after := WalletOf(book, k), PostTogether(book, [MoveBack(k, total)]).value;
            && WalletOf(after, k) == Wallet(w.available + total, w.freeze - total, w.award)
            && (forall other :: other != k ==> WalletOf(after, other) == WalletOf(book, other))
  {
    HalfUpWhole(total);
    HalfUpWhole(-total);
    HalfUpWhole(0);
    assert PostTogether(book, [MoveBack(k, total)]) == Post(book, MoveBack(k, total));
  }

  /** ... and it can be canceled again: the buyer is refunded twice, out of what is frozen for the
      buyer's other orders, and the stock grows by the units once more. */
  lemma RefundedTwice(u: Setup, s: Shop, buyer: int, coin: string, line: Line)
    requires Sane(s) && line.good in s.goods && 0 < line.count <= s.goods[line.good].stock
    requires PriceOf(s.goods, line) <= WalletOf(s.book, Key(buyer, coin)).available
    requires PriceOf(s.goods, line) <= WalletOf(s.book, Key(buyer, coin)).freeze
    ensures var id, w, price := |s.orders|, WalletOf(s.book, Key(buyer, coin)), PriceOf(s.goods, line);
            var steps := [Pay(buyer, coin, [line], true), CancelUnsent(id), Send(id), CancelUnsent(id)];
            && Settlements(u, s, steps, id) == 2
            && WalletOf(Run(u, s, steps).book, Key(buyer, coin)) ==
               Wallet(w.available + price, w.freeze - price, w.award)
            && Units(Run(u, s, steps), line.good) == Units(s, line.good) + line.count
  {
    var id, pay, o := |s.orders|, Pay(buyer, coin, [line], true), NewOrder(s, buyer, coin, line);
    var three := [pay, CancelUnsent(id), Send(id)];
    CanceledThenSent(u, s, buyer, coin, line);
    NonNegativeProduct(line.count, s.goods[line.good].price);
    CancelRefunds(u, Run(u, s, three), id);
    RunLast(u, s, three, CancelUnsent(id));
    assert three + [CancelUnsent(id)] == [pay, CancelUnsent(id), Send(id), CancelUnsent(id)];
    assert (three + [CancelUnsent(id)])[..3] == three;
  }

  lemma CancelRefunds(u: Setup, s: Shop, id: int)
    requires 0 <= id < |s.orders| && Live(s.orders[id]) && s.orders[id].good in s.goods
    requires 0 <= s.orders[id].total <= WalletOf(s.book, BuyerKey(s.orders[id])).freeze
    requires forall k :: k in s.book.wallets ==> NonNegative(s.book.wallets[k])
    ensures var after, o := Next(u, s, CancelUnsent(id)), s.orders[id];
            var w := WalletOf(s.book, BuyerKey(o));
            && after.Some? && (forall g :: Units(after.value, g) == Units(s, g))
            && WalletOf(after.value.book, BuyerKey(o)) == Wallet(w.available + o.total, w.freeze - o.total, w.award)
  {
    var o := s.orders[id];
    FrozenCanMoveBack(s.book, BuyerKey(o), o.total);
    RefundGives(s.book, BuyerKey(o), o.total);
    forall g ensures Units(Next(u, s, CancelUnsent(id)).value, g) == Units(s, g) {
      UnitsChange(u, s, CancelUnsent(id), g);
    }
  }
}
