/** closeOrderByUserId: when a seller loses the sales permit, three queries select the seller's orders
    one after the other, and every selected order is settled. */
module MallClose {
  import opened Ledgers
  import opened Mall
  import opened MallAwards
  import opened MallRuns
  import opened Sums

  /** The three loops: unsent orders are canceled, requested returns are accepted, sent orders are
      confirmed. */
  datatype Loop = CancelLoop | ReturnLoop | ConfirmLoop

  function StepFor(loop: Loop, id: int): Step
  {
    match loop
    case CancelLoop => CancelUnsent(id)
    case ReturnLoop => ConfirmReturn(id)
    case ConfirmLoop => Confirm(id)
  }

  /** The queries. The first and the last join the picture of the good and skip orders with a return. */
  predicate Selects(u: Setup, loop: Loop, seller: int, o: Order)
  {
    o.seller == seller &&
    match loop
    case CancelLoop => o.status == Unsent && o.returned == Normal && o.good in u.pictured
    case ReturnLoop => o.returned == Returning
    case ConfirmLoop => o.status == Sent && o.returned == Normal && o.good in u.pictured
  }

  function Query(u: Setup, loop: Loop, seller: int, orders: seq<Order>): seq<int>
  {
    if orders == [] then [] else
      var n := |orders| - 1;
      Query(u, loop, seller, orders[..n]) + if Selects(u, loop, seller, orders[n]) then [n] else []
  }

  lemma {:induction false} QuerySelects(u: Setup, loop: Loop, seller: int, orders: seq<Order>)
    ensures forall i :: i in Query(u, loop, seller, orders) <==>
        0 <= i < |orders| && Selects(u, loop, seller, orders[i])
    ensures forall k, l :: 0 <= k < l < |Query(u, loop, seller, orders)| ==>
              Query(u, loop, seller, orders)[k] < Query(u, loop, seller, orders)[l]
  {
    if orders != [] {
      var n := |orders| - 1;
      QuerySelects(u, loop, seller, orders[..n]);
      var before := Query(u, loop, seller, orders[..n]);
      assert forall k :: 0 <= k < |before| ==> before[k] in before;
    }
  }

  /** Whom the three loops are about: the seller's unsent orders without a return and with a picture; those
      with a requested return; those sent, without a return and with a picture. */
  lemma LoopsByColumns(u: Setup, seller: int, o: Order)
    ensures Selects(u, CancelLoop, seller, o) <==>
              o.seller == seller && o.status == Unsent && o.returned == Normal && o.good in u.pictured
    ensures Selects(u, ReturnLoop, seller, o) <==> o.seller == seller && o.returned == Returning
    ensures Selects(u, ConfirmLoop, seller, o) <==>
              o.seller == seller && o.status == Sent && o.returned == Normal && o.good in u.pictured
  {
  }

  function StepsFor(loop: Loop, ids: seq<int>): seq<Step>
  {
    seq(|ids|, i requires 0 <= i < |ids| => StepFor(loop, ids[i]))
  }

  function RunLoop(u: Setup, s: Shop, loop: Loop, seller: int): Shop
  {
    Run(u, s, StepsFor(loop, Query(u, loop, seller, s.orders)))
  }

  function Close(u: Setup, s: Shop, seller: int): Shop
  {
    RunLoop(u, RunLoop(u, RunLoop(u, s, CancelLoop, seller), ReturnLoop, seller), ConfirmLoop, seller)
  }

  /** What a loop makes of an order that it selected. */
  predicate Outcome(loop: Loop, o: Order, after: Order)
  {
    match loop
    case CancelLoop => after == o.(status := Canceled)
    case ReturnLoop => after == if Live(o) then o.(returned := Returned) else o
    case ConfirmLoop => after == o || after == o.(status := Success)
  }

  /** What a loop did after working through the orders `ids`. */
  ghost predicate Looped(s: Shop, after: Shop, loop: Loop, ids: seq<int>)
  {
    && Sane(after) && |after.orders| == |s.orders|
    && (forall i :: 0 <= i < |s.orders| && i !in ids ==> after.orders[i] == s.orders[i])
    && (forall i :: 0 <= i < |s.orders| && i in ids ==> Outcome(loop, s.orders[i], after.orders[i]))
  }

  predicate MayLoop(s: Shop, loop: Loop, ids: seq<int>)
  {
    && (forall k :: 0 <= k < |ids| ==> 0 <= ids[k] < |s.orders| && (loop.CancelLoop? ==> Live(s.orders[ids[k]])))
    && (forall k, l :: 0 <= k < l < |ids| ==> ids[k] < ids[l])
  }

  /** A settlement step changes its own order or nothing. */
  lemma StepTouchesOwn(u: Setup, s: Shop, loop: Loop, id: int)
    requires Sane(s) && 0 <= id < |s.orders| && (loop.CancelLoop? ==> Live(s.orders[id]))
    ensures var step := StepFor(loop, id);
            var after := if Next(u, s, step).Some? then Next(u, s, step).value else s;
            && Sane(after) && |after.orders| == |s.orders|
            && Outcome(loop, s.orders[id], after.orders[id])
            && forall i :: 0 <= i < |s.orders| && i != id ==> after.orders[i] == s.orders[i]
  {
    RefundNeverShort(u, s, id);
    if Next(u, s, StepFor(loop, id)).Some? {
      NextKeepsSane(u, s, StepFor(loop, id));
    }
  }

  lemma LoopedMore(s: Shop, before: Shop, after: Shop, loop: Loop, ids: seq<int>, id: int)
    requires MayLoop(s, loop, ids + [id]) && Looped(s, before, loop, ids) && 0 <= id < |s.orders|
    requires Sane(after) && |after.orders| == |s.orders| && Outcome(loop, before.orders[id], after.orders[id])
    requires forall i :: 0 <= i < |s.orders| && i != id ==> after.orders[i] == before.orders[i]
    ensures Looped(s, after, loop, ids + [id])
  {
    var more := ids + [id];
    forall k | 0 <= k < |ids| ensures ids[k] < id {
      assert more[k] < more[|ids|];
    }
    forall i | 0 <= i < |s.orders|
      ensures if i in ids + [id] then Outcome(loop, s.orders[i], after.orders[i]) else after.orders[i] == s.orders[i]
    {
      if i == id {
        assert (ids + [id])[|ids|] == i;
      }
    }
  }

  lemma MayLoopLast(s: Shop, loop: Loop, ids: seq<int>)
    requires MayLoop(s, loop, ids) && ids != []
    ensures var n := |ids| - 1;
            && MayLoop(s, loop, ids[..n]) && ids[n] !in ids[..n] && ids == ids[..n] + [ids[n]]
            && StepsFor(loop, ids) == StepsFor(loop, ids[..n]) + [StepFor(loop, ids[n])]
            && 0 <= ids[n] < |s.orders| && (loop.CancelLoop? ==> Live(s.orders[ids[n]]))
  {
  }

  lemma {:induction false} LoopOutcome(u: Setup, s: Shop, loop: Loop, ids: seq<int>)
    requires Sane(s) && MayLoop(s, loop, ids)
    ensures Looped(s, Run(u, s, StepsFor(loop, ids)), loop, ids)
  {
    if ids != [] {
      var n := |ids| - 1;
      var before, id := Run(u, s, StepsFor(loop, ids[..n])), ids[n];
      MayLoopLast(s, loop, ids);
      LoopOutcome(u, s, loop, ids[..n]);
      RunLast(u, s, StepsFor(loop, ids[..n]), StepFor(loop, id));
      StepTouchesOwn(u, before, loop, id);
      LoopedMore(s, before, Run(u, s, StepsFor(loop, ids)), loop, ids[..n], id);
    }
  }

  predicate Stage(u: Setup, loop: Loop, seller: int, o: Order, after: Order)
  {
    if Selects(u, loop, seller, o) then Outcome(loop, o, after) else after == o
  }

  lemma RunLoopOutcome(u: Setup, s: Shop, loop: Loop, seller: int)
    requires Sane(s)
    ensures var after := RunLoop(u, s, loop, seller);
            && Sane(after) && |after.orders| == |s.orders|
            && forall i :: 0 <= i < |s.orders| ==>
                 Stage(u, loop, seller, s.orders[i], after.orders[i])
  {
    var ids := Query(u, loop, seller, s.orders);
    QuerySelects(u, loop, seller, s.orders);
    assert forall k :: 0 <= k < |ids| ==> ids[k] in ids;
    LoopOutcome(u, s, loop, ids);
  }

  /** How the closing of `seller` treats an order: another's or a settled one is left alone, an unsent
      one is canceled, a requested return of a live one is accepted, a sent one is completed or, when the
      buyer's award balance is short or the shop is missing, left. */
  predicate ClosedAs(u: Setup, seller: int, o: Order, after: Order)
  {
    if Selects(u, CancelLoop, seller, o) then after == o.(status := Canceled)
    else if Selects(u, ReturnLoop, seller, o) && Live(o) then after == o.(returned := Returned)
    else if Selects(u, ConfirmLoop, seller, o) then after == o || after == o.(status := Success)
    else after == o
  }

  lemma ThreeStages(u: Setup, seller: int, o: Order, o1: Order, o2: Order, o3: Order)
    requires Stage(u, CancelLoop, seller, o, o1) && Stage(u, ReturnLoop, seller, o1, o2)
    requires Stage(u, ConfirmLoop, seller, o2, o3)
    ensures ClosedAs(u, seller, o, o3)
  {
  }

  /** Closing settles each order in one way: no order is refunded twice or both refunded and paid out,
      and none that was settled before, or belongs to somebody else, is touched. */
  lemma CloseSettlesOnce(u: Setup, s: Shop, seller: int)
    requires Sane(s)
    ensures var after := Close(u, s, seller);
            && Sane(after) && |after.orders| == |s.orders|
            && forall i :: 0 <= i < |s.orders| ==> ClosedAs(u, seller, s.orders[i], after.orders[i])
  {
    var s1 := RunLoop(u, s, CancelLoop, seller);
    var s2 := RunLoop(u, s1, ReturnLoop, seller);
    RunLoopOutcome(u, s, CancelLoop, seller);
    RunLoopOutcome(u, s1, ReturnLoop, seller);
    RunLoopOutcome(u, s2, ConfirmLoop, seller);
    var after := Close(u, s, seller);
    forall i | 0 <= i < |s.orders| ensures ClosedAs(u, seller, s.orders[i], after.orders[i]) {
      ThreeStages(u, seller, s.orders[i], s1.orders[i], s2.orders[i], after.orders[i]);
    }
  }

  // ---- which sent orders are completed

  lemma {:induction false} RunInTwo(u: Setup, s: Shop, a: seq<Step>, b: seq<Step>)
    ensures Run(u, s, a + b) == Run(u, Run(u, s, a), b)
  {
    if b == [] {
      assert a + b == a;
    } else {
      var n := |b| - 1;
      assert (a + b)[..|a + b| - 1] == a + b[..n];
      RunInTwo(u, s, a, b[..n]);
    }
  }

  /** The shop when the loop over sent orders begins, and the sent orders in the order of their turns. */
  function BeforeConfirming(u: Setup, s: Shop, seller: int): Shop
  {
    RunLoop(u, RunLoop(u, s, CancelLoop, seller), ReturnLoop, seller)
  }

  function SentOrders(u: Setup, s: Shop, seller: int): seq<int>
  {
    Query(u, ConfirmLoop, seller, BeforeConfirming(u, s, seller).orders)
  }

  /** The shop when the sent order number `k` has its turn. */
  function AtTurn(u: Setup, s: Shop, seller: int, k: nat): Shop
    requires k <= |SentOrders(u, s, seller)|
  {
    Run(u, BeforeConfirming(u, s, seller), StepsFor(ConfirmLoop, SentOrders(u, s, seller)[..k]))
  }

  lemma TurnsMayLoop(u: Setup, s: Shop, seller: int)
    requires Sane(s)
    ensures var s2, ids := BeforeConfirming(u, s, seller), SentOrders(u, s, seller);
            && Sane(s2) && |s2.orders| == |s.orders| && MayLoop(s2, ConfirmLoop, ids)
            && forall i :: i in ids <==> 0 <= i < |s.orders| && Selects(u, ConfirmLoop, seller, s.orders[i])
    ensures forall i :: i in SentOrders(u, s, seller) ==> BeforeConfirming(u, s, seller).orders[i] == s.orders[i]
  {
    var s1 := RunLoop(u, s, CancelLoop, seller);
    var s2, ids := BeforeConfirming(u, s, seller), SentOrders(u, s, seller);
    RunLoopOutcome(u, s, CancelLoop, seller);
    RunLoopOutcome(u, s1, ReturnLoop, seller);
    QuerySelects(u, ConfirmLoop, seller, s2.orders);
    forall i | 0 <= i < |s.orders|
      ensures Selects(u, ConfirmLoop, seller, s2.orders[i]) <==> Selects(u, ConfirmLoop, seller, s.orders[i])
      ensures Selects(u, ConfirmLoop, seller, s.orders[i]) ==> s2.orders[i] == s.orders[i]
    {
      assert Stage(u, CancelLoop, seller, s.orders[i], s1.orders[i]);
      assert Stage(u, ReturnLoop, seller, s1.orders[i], s2.orders[i]);
    }
    assert forall k :: 0 <= k < |ids| ==> ids[k] in ids;
  }

  /** A selected sent order is completed exactly when, at its turn, its seller has a shop and the buyer's
      award balance covers its price; otherwise it is left as it was. */
  lemma SentCompletesExactly(u: Setup, s: Shop, seller: int, k: nat)
    requires Sane(s) && k < |SentOrders(u, s, seller)|
    ensures var i, turn := SentOrders(u, s, seller)[k], AtTurn(u, s, seller, k);
            && 0 <= i < |s.orders| == |Close(u, s, seller).orders|
            && var o := s.orders[i];
               Close(u, s, seller).orders[i]
               == if SellerHasShop(u, turn, o) && o.total <= WalletOf(turn.book, BuyerKey(o)).award
                  then o.(status := Success) else o
  {
    var s2, ids := BeforeConfirming(u, s, seller), SentOrders(u, s, seller);
    TurnsMayLoop(u, s, seller);
    assert ids[k] in ids;
    TurnBefore(u, s2, ids, k);
    ConfirmOne(u, AtTurn(u, s, seller, k), ids[k]);
    TurnAfter(u, s2, ids, k);
  }

  /** Before its turn an order is not touched, ... */
  lemma TurnBefore(u: Setup, s: Shop, ids: seq<int>, k: nat)
    requires Sane(s) && MayLoop(s, ConfirmLoop, ids) && k < |ids|
    ensures var turn := Run(u, s, StepsFor(ConfirmLoop, ids[..k]));
            Sane(turn) && |turn.orders| == |s.orders| && turn.orders[ids[k]] == s.orders[ids[k]]
  {
    LoopOutcome(u, s, ConfirmLoop, ids[..k]);
    assert ids[k] !in ids[..k];
  }

  function Confirmed(u: Setup, s: Shop, id: int): Shop
  {
    if Next(u, s, Confirm(id)).Some? then Next(u, s, Confirm(id)).value else s
  }

  /** ... at its turn it is completed or not, ... */
  lemma ConfirmOne(u: Setup, s: Shop, id: int)
    requires Sane(s) && 0 <= id < |s.orders| && s.orders[id].status == Sent && s.orders[id].returned == Normal
    ensures var o, after := s.orders[id], Confirmed(u, s, id);
            && |after.orders| == |s.orders|
            && after.orders[id] == if SellerHasShop(u, s, o) && o.total <= WalletOf(s.book, BuyerKey(o)).award
                                   then o.(status := Success) else o
  {
    ConfirmNeedsAward(u, s, id);
  }

  /** ... and after it, not any more. */
  lemma TurnAfter(u: Setup, s: Shop, ids: seq<int>, k: nat)
    requires Sane(s) && MayLoop(s, ConfirmLoop, ids) && k < |ids|
    ensures var turn, after := Run(u, s, StepsFor(ConfirmLoop, ids[..k])), Run(u, s, StepsFor(ConfirmLoop, ids));
            && |after.orders| == |s.orders| == |Confirmed(u, turn, ids[k]).orders|
            && after.orders[ids[k]] == Confirmed(u, turn, ids[k]).orders[ids[k]]
  {
    var turn := Run(u, s, StepsFor(ConfirmLoop, ids[..k]));
    TurnBefore(u, s, ids, k);
    StepTouchesOwn(u, turn, ConfirmLoop, ids[k]);
    LoopOutcome(u, Confirmed(u, turn, ids[k]), ConfirmLoop, ids[k + 1..]);
    assert ids[k] !in ids[k + 1..];
    TurnSplits(u, s, ids, k);
  }

  lemma TurnSplits(u: Setup, s: Shop, ids: seq<int>, k: nat)
    requires k < |ids|
    ensures var turn := Run(u, s, StepsFor(ConfirmLoop, ids[..k]));
            Run(u, s, StepsFor(ConfirmLoop, ids))
            == Run(u, Confirmed(u, turn, ids[k]), StepsFor(ConfirmLoop, ids[k + 1..]))
  {
    var a, b, c := StepsFor(ConfirmLoop, ids[..k]), Confirm(ids[k]), StepsFor(ConfirmLoop, ids[k + 1..]);
    assert StepsFor(ConfirmLoop, ids) == (a + [b]) + c;
    RunInTwo(u, s, a + [b], c);
    RunLast(u, s, a, b);
  }

  /** In particular, without award balances closing leaves every sent order that costs anything as it
      was, neither refunded nor paid out. */
  lemma PricedSentOrdersStay(u: Setup, s: Shop, seller: int, i: int)
    requires Sane(s) && NoAward(s)
    requires 0 <= i < |s.orders| && Selects(u, ConfirmLoop, seller, s.orders[i]) && 0 < s.orders[i].total
    ensures i < |Close(u, s, seller).orders| && Close(u, s, seller).orders[i] == s.orders[i]
  {
    TurnsMayLoop(u, s, seller);
    var ids := SentOrders(u, s, seller);
    var k :| 0 <= k < |ids| && ids[k] == i;
    SentCompletesExactly(u, s, seller, k);
    var s1 := RunLoop(u, s, CancelLoop, seller);
    RunKeepsNoAward(u, s, StepsFor(CancelLoop, Query(u, CancelLoop, seller, s.orders)));
    RunKeepsNoAward(u, s1, StepsFor(ReturnLoop, Query(u, ReturnLoop, seller, s1.orders)));
    RunKeepsNoAward(u, BeforeConfirming(u, s, seller), StepsFor(ConfirmLoop, ids[..k]));
    assert WalletOf(AtTurn(u, s, seller, k).book, BuyerKey(s.orders[i])).award == 0;
  }

  /** The orders that the three loops take up. */
  function Attempts(u: Setup, s: Shop, seller: int): seq<int>
  {
    var s1 := RunLoop(u, s, CancelLoop, seller);
    var s2 := RunLoop(u, s1, ReturnLoop, seller);
    Query(u, CancelLoop, seller, s.orders) + Query(u, ReturnLoop, seller, s1.orders)
        + Query(u, ConfirmLoop, seller, s2.orders)
  }

  predicate Distinct(ids: seq<int>)
  {
    forall k, l :: 0 <= k < l < |ids| ==> ids[k] != ids[l]
  }

  lemma DistinctTogether(a: seq<int>, b: seq<int>)
    requires Distinct(a) && Distinct(b) && forall i :: i in a ==> i !in b
    ensures Distinct(a + b)
  {
    forall k, l | 0 <= k < l < |a + b| ensures (a + b)[k] != (a + b)[l] {
      assert k < |a| ==> a[k] in a;
      assert |a| <= l ==> b[l - |a|] in b;
    }
  }

  /** No order is taken up twice, although each query sees what the loops before it left. */
  lemma NoOrderTwice(u: Setup, s: Shop, seller: int)
    requires Sane(s)
    ensures Distinct(Attempts(u, s, seller))
  {
    var s1 := RunLoop(u, s, CancelLoop, seller);
    var s2 := RunLoop(u, s1, ReturnLoop, seller);
    var a, b, c := Query(u, CancelLoop, seller, s.orders), Query(u, ReturnLoop, seller, s1.orders),
                   Query(u, ConfirmLoop, seller, s2.orders);
    QuerySelects(u, CancelLoop, seller, s.orders);
    QuerySelects(u, ReturnLoop, seller, s1.orders);
    QuerySelects(u, ConfirmLoop, seller, s2.orders);
    RunLoopOutcome(u, s, CancelLoop, seller);
    RunLoopOutcome(u, s1, ReturnLoop, seller);
    forall i | i in a ensures i !in b && i !in c {
      CanceledIsDone(u, s, s1, s2, seller, i);
    }
    forall i | i in b ensures i !in c {
      ReturningIsNotSent(u, s1, s2, seller, i);
    }
    DistinctTogether(a, b);
    DistinctTogether(a + b, c);
  }

  lemma CanceledIsDone(u: Setup, s: Shop, s1: Shop, s2: Shop, seller: int, i: int)
    requires Sane(s) && s1 == RunLoop(u, s, CancelLoop, seller) && s2 == RunLoop(u, s1, ReturnLoop, seller)
    requires 0 <= i < |s.orders| && Selects(u, CancelLoop, seller, s.orders[i])
    ensures i < |s1.orders| == |s2.orders|
    ensures !Selects(u, ReturnLoop, seller, s1.orders[i]) && !Selects(u, ConfirmLoop, seller, s2.orders[i])
  {
    RunLoopOutcome(u, s, CancelLoop, seller);
    RunLoopOutcome(u, s1, ReturnLoop, seller);
  }

  lemma ReturningIsNotSent(u: Setup, s1: Shop, s2: Shop, seller: int, i: int)
    requires Sane(s1) && s2 == RunLoop(u, s1, ReturnLoop, seller)
    requires 0 <= i < |s1.orders| && Selects(u, ReturnLoop, seller, s1.orders[i])
    ensures |s1.orders| == |s2.orders| && !Selects(u, ConfirmLoop, seller, s2.orders[i])
  {
    RunLoopOutcome(u, s1, ReturnLoop, seller);
  }
}
