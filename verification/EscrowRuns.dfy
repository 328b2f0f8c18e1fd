/** What holds along every run of escrowed orders and withdrawals. */
module EscrowRuns {
  import opened Escrow
  import opened Ledgers
  import opened Rounding
  import opened Sums

  const START := World(Book(map[], []), [], [], [])

  lemma WithdrawKeeps(w: World, step: Step)
    requires Accounted(w) && step.Withdraw? && Next(w, step).Some?
    ensures Accounted(Next(w, step).value)
  {
    var k := Key(step.user, step.coin);
    var c := FreezeCall(k, step.amount);
    var o := PlatOrder(step.user, step.coin, Sell, step.amount, step.price, Accepted);
    HalfUpSymmetric(step.amount);
    forall other, bucket | bucket != Award
      ensures SeqSum([c], Moves(other, bucket)) == OrderEffect(o, other, bucket)
    {
      SumOfOne(c, other, bucket);
    }
    assert PostTogether(w.book, [c]) == Post(w.book, c);
    NewOrderKeeps(w, [c], o);
  }

  lemma FreezeLeg(of: Key, amount: real, k: Key, bucket: Bucket)
    requires bucket != Award
    ensures Moved(FreezeCall(of, amount), k, bucket) == LegEffect(Applying, of, amount, k, bucket)
  {
    HalfUpSymmetric(amount);
  }

  /** Freezing the legs of a withdrawal is its effect while it is applied for. */
  lemma FreezeMoves(s: SendCoin, k: Key, bucket: Bucket)
    requires s.external && s.status.Applying? && bucket != Award
    ensures SeqSum(Legs(s, FreezeCall), Moves(k, bucket)) == SendEffect(s, k, bucket)
  {
    FreezeLeg(SendKey(s), s.amount, k, bucket);
    FreezeLeg(FeeKey(s), s.fee, k, bucket);
    SumOfLegs(s, FreezeCall, k, bucket);
  }

  lemma TransferOutKeeps(w: World, step: Step)
    requires Accounted(w) && step.TransferOut? && Next(w, step).Some?
    ensures Accounted(Next(w, step).value)
  {
    var fee := FeeOf(step.amount, step.config.value.withdrawFeeRate, step.config.value.transferFeeSelect,
                     step.changeRate);
    var s := SendCoin(step.user, step.coin, step.amount, fee.value, Applying, true);
    NewWithdrawalKeeps(w, s);
  }

  lemma NewWithdrawalKeeps(w: World, s: SendCoin)
    requires Accounted(w) && 0.0 < s.amount && s.external && s.status.Applying?
    requires PostTogether(w.book, Legs(s, FreezeCall)).Some?
    ensures Accounted(w.(book := PostTogether(w.book, Legs(s, FreezeCall)).value, sends := w.sends + [s]))
  {
    forall k, bucket | bucket != Award
      ensures SeqSum(Legs(s, FreezeCall), Moves(k, bucket))
           == SendEffect(s, k, bucket) + SeqSum([], FlowEffects(k, bucket))
    {
      FreezeMoves(s, k, bucket);
    }
    NewSendKeeps(w, Legs(s, FreezeCall), s, []);
    assert w.outside + [] == w.outside;
  }

  lemma TransferInnerKeeps(w: World, step: Step)
    requires Accounted(w) && step.TransferInner? && Next(w, step).Some?
    ensures Accounted(Next(w, step).value)
  {
    var fee := FeeOf(step.amount, step.config.value.transferFeeRate, step.config.value.transferFeeSelect,
        step.changeRate).value;
    var s := SendCoin(step.user, step.coin, step.amount, fee, Passed, false);
    ThreeCreditsKeep(w, s, Key(step.user, step.coin), -step.amount, Key(step.user, step.platCoin), -fee,
                     Key(step.toUser, step.coin), step.amount);
  }

  /** Crediting and debiting available money is what the same flows explain. */
  lemma CreditsAreFlows(k1: Key, x1: real, k2: Key, x2: real, k3: Key, x3: real, k: Key, bucket: Bucket)
    requires bucket != Award
    ensures SeqSum([CreditCall(k1, x1), CreditCall(k2, x2), CreditCall(k3, x3)], Moves(k, bucket))
         == SeqSum([Flow(k1, HalfUp(x1)), Flow(k2, HalfUp(x2)), Flow(k3, HalfUp(x3))], FlowEffects(k, bucket))
  {
    HalfUpWhole(0);
    SumOfThree(CreditCall(k1, x1), CreditCall(k2, x2), CreditCall(k3, x3), Moves(k, bucket));
    SumOfThree(Flow(k1, HalfUp(x1)), Flow(k2, HalfUp(x2)), Flow(k3, HalfUp(x3)), FlowEffects(k, bucket));
  }

  lemma ThreeCreditsKeep(w: World, s: SendCoin, k1: Key, x1: real, k2: Key, x2: real, k3: Key, x3: real)
    requires Accounted(w) && 0.0 < s.amount && !s.external && !s.status.Applying?
    requires PostTogether(w.book, [CreditCall(k1, x1), CreditCall(k2, x2), CreditCall(k3, x3)]).Some?
    ensures var calls := [CreditCall(k1, x1), CreditCall(k2, x2), CreditCall(k3, x3)];
            var flows := [Flow(k1, HalfUp(x1)), Flow(k2, HalfUp(x2)), Flow(k3, HalfUp(x3))];
            Accounted(World(PostTogether(w.book, calls).value, w.orders, w.sends + [s], w.outside + flows))
  {
    forall k, bucket | bucket != Award
      ensures SeqSum([CreditCall(k1, x1), CreditCall(k2, x2), CreditCall(k3, x3)], Moves(k, bucket))
           == SendEffect(s, k, bucket)
              + SeqSum([Flow(k1, HalfUp(x1)), Flow(k2, HalfUp(x2)), Flow(k3, HalfUp(x3))], FlowEffects(k, bucket))
    {
      CreditsAreFlows(k1, x1, k2, x2, k3, x3, k, bucket);
    }
    NewSendKeeps(w, [CreditCall(k1, x1), CreditCall(k2, x2), CreditCall(k3, x3)], s,
                 [Flow(k1, HalfUp(x1)), Flow(k2, HalfUp(x2)), Flow(k3, HalfUp(x3))]);
  }

  lemma SumOfThree<T>(a: T, b: T, c: T, f: T -> int)
    ensures SeqSum([a, b, c], f) == f(a) + f(b) + f(c)
  {
    SeqSumAppend([], a, f);
    SeqSumAppend([a], b, f);
    SeqSumAppend([a, b], c, f);
    assert [] + [a] == [a] && [a] + [b] == [a, b] && [a, b] + [c] == [a, b, c];
  }

  lemma OtherServiceKeeps(w: World, step: Step)
    requires Accounted(w) && step.OtherService? && Next(w, step).Some?
    ensures Accounted(Next(w, step).value)
  {
    OtherCallKeeps(w, step.call);
  }

  lemma OtherCallKeeps(w: World, call: Call)
    requires Accounted(w) && call.delta.freeze == 0.0 && Post(w.book, call).Some?
    ensures Accounted(w.(book := Post(w.book, call).value,
                         outside := w.outside + [Flow(call.key, HalfUp(call.delta.available))]))
  {
    var flow := Flow(call.key, HalfUp(call.delta.available));
    HalfUpWhole(0);
    PostKeepsNonNegative(w.book, call);
    forall k, bucket | bucket != Award
      ensures In(WalletOf(Post(w.book, call).value, k), bucket) == Explained(w, k, bucket) + FlowEffect(flow, k, bucket)
      ensures SeqSum(w.outside + [flow], FlowEffects(k, bucket))
           == SeqSum(w.outside, FlowEffects(k, bucket)) + FlowEffect(flow, k, bucket)
    {
      PostMoves(w.book, call, k, bucket);
      SeqSumAppend(w.outside, flow, FlowEffects(k, bucket));
    }
  }

  lemma DepositKeeps(w: World, step: Step)
    requires Accounted(w) && step.Deposit? && Next(w, step).Some?
    ensures Accounted(Next(w, step).value)
  {
    NewOrderKeeps(w, [], PlatOrder(step.user, step.coin, Buy, step.amount, step.plat.value.buyPrice, Accepted));
  }

  /** Settling steps: the ledger calls are exactly the change of the row's effect. */
  lemma SettlingKeeps(w: World, step: Step)
    requires Accounted(w) && Next(w, step).Some?
    requires step.Cancel? || step.AdminCancel? || step.AdminConfirm? || step.CheckPass? || step.CheckFail?
    ensures Accounted(Next(w, step).value)
  {
    var id := step.id;
    if step.CheckPass? {
      var status := if step.answer.Timeout? then Other else Passed;
      forall k, bucket | bucket != Award { PassMoves(w.sends[id], status, k, bucket); }
      SendStepKeeps(w, Legs(w.sends[id], SpendFrozenCall), id, status);
    } else if step.CheckFail? {
      forall k, bucket | bucket != Award { FailMoves(w.sends[id], k, bucket); }
      SendStepKeeps(w, Legs(w.sends[id], UnfreezeCall), id, Failed);
    } else if step.AdminConfirm? {
      forall k, bucket | bucket != Award { SettleMoves(w.orders[id], k, bucket); }
      OrderStepKeeps(w, Settle(w.orders[id]), id, Done);
    } else {
      forall k, bucket | bucket != Award { RefundMoves(w.orders[id], k, bucket); }
      OrderStepKeeps(w, Refund(w.orders[id]), id, Canceled);
    }
  }

  /** No step breaks the accounting of any wallet. */
  lemma NextKeepsAccounted(w: World, step: Step)
    requires Accounted(w) && Next(w, step).Some?
    ensures Accounted(Next(w, step).value)
  {
    match step
    case Deposit(_, _, _, _, _, _, _) => DepositKeeps(w, step);
    case Withdraw(_, _, _, _, _, _, _) => WithdrawKeeps(w, step);
    case TransferOut(_, _, _, _, _, _) => TransferOutKeeps(w, step);
    case TransferInner(_, _, _, _, _, _, _) => TransferInnerKeeps(w, step);
    case OtherService(_) => OtherServiceKeeps(w, step);
    case Confirm(_, id) => OrderStepKeeps(w, [], id, Paid);
    case Complain(_, id) => OrderStepKeeps(w, [], id, Complaint);
    case _ => SettlingKeeps(w, step);
  }

  /** A run of requests, where a refused request changes nothing. */
  function Run(w: World, steps: seq<Step>): World
  {
    if steps == [] then w else
      var before := Run(w, steps[..|steps| - 1]);
      match Next(before, steps[|steps| - 1])
      case None => before
      case Some(after) => after
  }

  lemma {:induction false} RunKeepsAccounted(w: World, steps: seq<Step>)
    requires Accounted(w)
    ensures Accounted(Run(w, steps))
  {
    if steps != [] {
      var before := Run(w, steps[..|steps| - 1]);
      RunKeepsAccounted(w, steps[..|steps| - 1]);
      if Next(before, steps[|steps| - 1]).Some? {
        NextKeepsAccounted(before, steps[|steps| - 1]);
      }
    }
  }

  // ---- frozen money is always there

  /** In every reachable world the frozen money of every wallet is what its open sales, the
      withdrawals applied for and their fees need, and its available money is what came in from outside
      plus what each order and withdrawal, according to how it ended, has taken or given. */
  lemma FrozenEqualsObligations(steps: seq<Step>, k: Key)
    ensures var w := Run(START, steps);
            WalletOf(w.book, k).freeze == SeqSum(w.orders, OrderEffects(k, Freeze))
                                          + SeqSum(w.sends, SendEffects(k, Freeze))
    ensures var w := Run(START, steps);
            WalletOf(w.book, k).available == SeqSum(w.outside, FlowEffects(k, Available))
                                             + SeqSum(w.orders, OrderEffects(k, Available))
                                             + SeqSum(w.sends, SendEffects(k, Available))
  {
    assert Accounted(START);
    RunKeepsAccounted(START, steps);
    var w := Run(START, steps);
    NoFrozenFlows(w.outside, k);
    assert In(WalletOf(w.book, k), Freeze) == Explained(w, k, Freeze);
    assert In(WalletOf(w.book, k), Available) == Explained(w, k, Available);
  }

  lemma {:induction false} NoFrozenFlows(flows: seq<Flow>, k: Key)
    ensures SeqSum(flows, FlowEffects(k, Freeze)) == 0
  {
    if flows != [] {
      NoFrozenFlows(flows[..|flows| - 1], k);
    }
  }

  lemma FrozenCovers(w: World, k: Key)
    requires Accounted(w)
    ensures forall i :: 0 <= i < |w.orders| ==> OrderEffect(w.orders[i], k, Freeze) <= WalletOf(w.book, k).freeze
    ensures forall i :: 0 <= i < |w.sends| ==> SendEffect(w.sends[i], k, Freeze) <= WalletOf(w.book, k).freeze
  {
    var f, g := OrderEffects(k, Freeze), SendEffects(k, Freeze);
    forall o | o in w.orders ensures 0 <= f(o) {
      HalfUpSign(o.amount);
    }
    forall s | s in w.sends ensures 0 <= g(s) {
      HalfUpSign(s.amount);
      HalfUpSign(s.fee);
    }
    NoFrozenFlows(w.outside, k);
    assert In(WalletOf(w.book, k), Freeze) == Explained(w, k, Freeze);
    SeqSumNonNegative(w.orders, f);
    SeqSumNonNegative(w.sends, g);
    forall i | 0 <= i < |w.orders| ensures OrderEffect(w.orders[i], k, Freeze) <= WalletOf(w.book, k).freeze {
      SeqSumAtLeast(w.orders, i, f);
    }
    forall i | 0 <= i < |w.sends| ensures SendEffect(w.sends[i], k, Freeze) <= WalletOf(w.book, k).freeze {
      SeqSumAtLeast(w.sends, i, g);
    }
  }

  /** The ledger never refuses a settlement of an open order: the status guards alone decide. */
  lemma OrderSettlementNeverShort(w: World, id: int, user: int)
    requires Accounted(w) && 0 <= id < |w.orders|
    ensures Next(w, AdminCancel(id)).Some? <==> Open(w.orders[id])
    ensures Next(w, AdminConfirm(id)).Some? <==> MayConfirm(w.orders[id])
    ensures Next(w, Cancel(user, id)).Some? <==> w.orders[id].status.Accepted? && w.orders[id].userId == user
  {
    var o := w.orders[id];
    FrozenCovers(w, OrderKey(o));
    HalfUpSymmetric(o.amount);
    HalfUpSign(o.amount);
    HalfUpWhole(0);
    if Open(o) {
      assert o.kind.Sell? ==> HalfUp(o.amount) <= WalletOf(w.book, OrderKey(o)).freeze;
      OneCall(w.book, UnfreezeCall(OrderKey(o), o.amount));
      OneCall(w.book, Settle(o)[0]);
    }
  }

  lemma OneCall(b: Book, c: Call)
    ensures PostTogether(b, [c]) == Post(b, c)
  {
  }

  lemma TwoCalls(b: Book, c: Call, d: Call)
    requires Post(b, c).Some?
    ensures PostTogether(b, [c, d]) == Post(Post(b, c).value, d)
  {
    assert [c, d][1..] == [d];
    OneCall(Post(b, c).value, d);
  }

  /** Three calls in one transaction are the three calls in a row, all or nothing. */
  lemma ThreeCalls(b: Book, c1: Call, c2: Call, c3: Call)
    ensures PostTogether(b, [c1, c2, c3])
         == match Post(b, c1)
            case None => None
            case Some(b1) => (match Post(b1, c2) case None => None case Some(b2) => Post(b2, c3))
  {
    assert [c1, c2, c3][1..] == [c2, c3] && [c2, c3][1..] == [c3];
    if Post(b, c1).Some? {
      var b1 := Post(b, c1).value;
      if Post(b1, c2).Some? {
        TwoCalls(b1, c2, c3);
      }
    }
  }

  /** The ledger never refuses a settlement of a withdrawal either, fee and amount together, even when
      both are frozen in the same wallet. */
  lemma WithdrawalSettlementNeverShort(w: World, id: int, answer: Answer)
    requires Accounted(w) && 0 <= id < |w.sends|
    ensures Next(w, CheckFail(id)).Some? <==> w.sends[id].status.Applying?
    ensures Next(w, CheckPass(id, answer)).Some? <==> w.sends[id].status.Applying? && !answer.NoTxid?
  {
    var s := w.sends[id];
    if s.status.Applying? {
      LegsSettle(w, s, id, SpendFrozenCall);
      LegsSettle(w, s, id, UnfreezeCall);
    }
  }

  lemma LegsSettle(w: World, s: SendCoin, id: int, leg: (Key, real) -> Call)
    requires Accounted(w) && 0 <= id < |w.sends| && w.sends[id] == s && s.status.Applying?
    requires leg == SpendFrozenCall || leg == UnfreezeCall
    ensures PostTogether(w.book, Legs(s, leg)).Some?
  {
    FrozenCovers(w, SendKey(s));
    FrozenCovers(w, FeeKey(s));
    HalfUpSymmetric(s.amount);
    HalfUpSymmetric(s.fee);
    HalfUpSign(s.amount);
    HalfUpSign(s.fee);
    HalfUpWhole(0);
    var main := leg(SendKey(s), s.amount);
    assert s in w.sends;
    assert NonNegative(WalletOf(w.book, SendKey(s))) && NonNegative(WalletOf(w.book, FeeKey(s)));
    assert SendEffect(s, SendKey(s), Freeze) <= WalletOf(w.book, SendKey(s)).freeze;
    if s.fee > 0.0 {
      var fee := leg(FeeKey(s), s.fee);
      assert SendEffect(s, FeeKey(s), Freeze) <= WalletOf(w.book, FeeKey(s)).freeze;
      assert Post(w.book, fee).Some?;
      assert Legs(s, leg) == [fee, main];
      TwoCalls(w.book, fee, main);
    } else {
      assert Legs(s, leg) == [main];
      OneCall(w.book, main);
    }
  }

  // ---- the life of an order

  function Rank(s: OrderStatus): nat
  {
    match s
    case Accepted => 3
    case Paid => 2
    case Complaint => 1
    case Done => 0
    case Canceled => 0
  }

  /** A step leaves an order alone or moves it, all else equal, strictly closer to its end; in
      particular a settled order is never touched again. */
  lemma StepLowersRank(w: World, step: Step, i: nat)
    requires i < |w.orders| && Next(w, step).Some?
    ensures i < |Next(w, step).value.orders|
    ensures var o := Next(w, step).value.orders[i];
            || o == w.orders[i]
            || (o.(status := w.orders[i].status) == w.orders[i] && Rank(o.status) < Rank(w.orders[i].status))
  {
  }

  /** How many steps of a run changed order `i`. */
  function Changes(w: World, steps: seq<Step>, i: nat): nat
    requires i < |w.orders|
    decreases |steps|
  {
    if steps == [] then 0 else
      match Next(w, steps[0])
      case None => Changes(w, steps[1..], i)
      case Some(after) =>
        StepLowersRank(w, steps[0], i);
        (if after.orders[i] == w.orders[i] then 0 else 1) + Changes(after, steps[1..], i)
  }

  /** Whatever requests follow, an order is changed at most as often as its rank, so at most three
      times, and once settled never. */
  lemma {:induction false} OrdersTakeAtMostThreeSteps(w: World, steps: seq<Step>, i: nat)
    requires i < |w.orders|
    ensures Changes(w, steps, i) <= Rank(w.orders[i].status) <= 3
    ensures !Open(w.orders[i]) ==> Changes(w, steps, i) == 0
    decreases |steps|
  {
    if steps != [] {
      match Next(w, steps[0])
      case None => OrdersTakeAtMostThreeSteps(w, steps[1..], i);
      case Some(after) =>
        StepLowersRank(w, steps[0], i);
        OrdersTakeAtMostThreeSteps(after, steps[1..], i);
    }
  }

  /** An open order can always be brought to an end by the administrator, and how it ended decides what
      its owner's wallet keeps: a canceled order leaves no trace, a sale takes the amount, a purchase
      gives it. */
  lemma EveryOrderCanEnd(w: World, id: int)
    requires Accounted(w) && 0 <= id < |w.orders| && Open(w.orders[id])
    ensures var after := Next(w, AdminCancel(id));
            && after.Some? && after.value.orders[id].status == Canceled
            && forall bucket :: OrderEffect(after.value.orders[id], OrderKey(w.orders[id]), bucket) == 0
    ensures MayConfirm(w.orders[id]) ==>
              var after, k := Next(w, AdminConfirm(id)), OrderKey(w.orders[id]);
              && after.Some? && after.value.orders[id].status == Done
              && OrderEffect(after.value.orders[id], k, Freeze) == 0
              && OrderEffect(after.value.orders[id], k, Available)
                 == if w.orders[id].kind.Sell? then -HalfUp(w.orders[id].amount) else HalfUp(w.orders[id].amount)
  {
    OrderSettlementNeverShort(w, id, w.orders[id].userId);
  }
}
