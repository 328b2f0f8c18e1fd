/** The escrowed orders of PlatOrderService and the withdrawals of SendCoinService, as one state
    machine over the ledger that both use. */
module Escrow {
  import opened Ledgers
  import opened Rounding
  import opened Sums

  datatype Kind = Buy | Sell

  datatype OrderStatus = Accepted | Paid | Complaint | Canceled | Done

  /** A row of t_plat_order; its id is its position in the table. */
  datatype PlatOrder = PlatOrder(userId: int, coin: string, kind: Kind, amount: real, price: real, status: OrderStatus)

  datatype SendStatus = Applying | Passed | Failed | Other

  /** A row of t_send_coin; `external` is its type column, false for a transfer between users. */
  datatype SendCoin = SendCoin(userId: int, coin: string, amount: real, fee: real, status: SendStatus, external: bool)

  datatype PlatConfig = PlatConfig(buyPrice: real, sellPrice: real, startTime: int, endTime: int)

  datatype CoinConfig = CoinConfig(transferEnable: int, transferMin: real, transferMax: real, transferFeeRate: real,
                                   withdrawMin: real, withdrawMax: real, withdrawFeeRate: real, transferFeeSelect: int)

  /** What the block-chain adapter answers to a transfer: nothing, "timeout", or a txid. */
  datatype Answer = NoTxid | Timeout | Txid

  /** Available money moved by anything but an escrowed order or withdrawal. */
  datatype Flow = Flow(key: Key, amount: int)

  datatype World = World(book: Book, orders: seq<PlatOrder>, sends: seq<SendCoin>, outside: seq<Flow>)

  datatype Step =
    | Deposit(user: int, coin: string, amount: real, price: real, hasBank: bool, plat: Option<PlatConfig>, now: int)
    | Withdraw(user: int, coin: string, amount: real, price: real, bankUser: Option<int>,
        plat: Option<PlatConfig>, now: int)
    | Confirm(user: int, id: int)
    | Cancel(user: int, id: int)
    | Complain(user: int, id: int)
    | AdminConfirm(id: int)
    | AdminCancel(id: int)
    | TransferOut(user: int, coin: string, amount: real, toPlatform: bool, config: Option<CoinConfig>, changeRate: real)
    | TransferInner(user: int, coin: string, toUser: int, amount: real, config: Option<CoinConfig>,
        changeRate: real, platCoin: string)
    | CheckPass(id: int, answer: Answer)
    | CheckFail(id: int)
    | OtherService(call: Call)

  /** The coin in which a withdrawal fee is frozen. */
  const BSTS := "BSTS"

  function FreezeCall(k: Key, a: real): Call { Call(k, Delta(-a, a, 0.0)) }
  function UnfreezeCall(k: Key, a: real): Call { Call(k, Delta(a, -a, 0.0)) }
  function SpendFrozenCall(k: Key, a: real): Call { Call(k, Delta(0.0, -a, 0.0)) }
  function CreditCall(k: Key, a: real): Call { Call(k, Delta(a, 0.0, 0.0)) }

  /** What a request does with the amount and the fee of a withdrawal. */
  datatype Move = Freezing | Spending | Unfreezing

  function CallOf(move: Move): (Key, real) -> Call
  {
    match move
    case Freezing => FreezeCall
    case Spending => SpendFrozenCall
    case Unfreezing => UnfreezeCall
  }

  function DeltaOf(move: Move, a: real): Delta
  {
    match move
    case Freezing => Delta(-a, a, 0.0)
    case Spending => Delta(0.0, -a, 0.0)
    case Unfreezing => Delta(a, -a, 0.0)
  }

  function OrderKey(o: PlatOrder): Key { Key(o.userId, o.coin) }
  function SendKey(s: SendCoin): Key { Key(s.userId, s.coin) }
  function FeeKey(s: SendCoin): Key { Key(s.userId, BSTS) }

  predicate Open(o: PlatOrder)
  {
    o.status.Accepted? || o.status.Paid? || o.status.Complaint?
  }

  predicate InHours(c: PlatConfig, now: int)
  {
    c.startTime <= now <= c.endTime
  }

  /** The fee of a transfer, or None for the fee rule that is not configured. */
  function FeeOf(amount: real, feeRate: real, select: int, changeRate: real): Option<real>
  {
    if select == 1 then None
    else Some(Times(if select == 0 then Times(amount, feeRate) else 0.0, changeRate))
  }

  function WithOrder(w: World, calls: seq<Call>, id: int, status: OrderStatus): Option<World>
    requires 0 <= id < |w.orders|
  {
    match PostTogether(w.book, calls)
    case None => None
    case Some(book) => Some(w.(book := book, orders := w.orders[id := w.orders[id].(status := status)]))
  }

  function WithSend(w: World, calls: seq<Call>, id: int, status: SendStatus): Option<World>
    requires 0 <= id < |w.sends|
  {
    match PostTogether(w.book, calls)
    case None => None
    case Some(book) => Some(w.(book := book, sends := w.sends[id := w.sends[id].(status := status)]))
  }

  /** Both legs of a withdrawal, the fee first; there is no fee leg when there is no fee. */
  function Legs(s: SendCoin, leg: (Key, real) -> Call): seq<Call>
  {
    (if s.fee > 0.0 then [leg(FeeKey(s), s.fee)] else []) + [leg(SendKey(s), s.amount)]
  }

  /** What one request does: the world it leads to, or None when it is refused and changes nothing. */
  function Next(w: World, step: Step): Option<World>
  {
    match step
    case Deposit(user, coin, amount, price, hasBank, plat, now) =>
      if amount <= 0.0 || !hasBank || plat.None? || price < plat.value.buyPrice || !InHours(plat.value, now) then None
      else Some(w.(orders := w.orders + [PlatOrder(user, coin, Buy, amount, plat.value.buyPrice, Accepted)]))
    case Withdraw(user, coin, amount, price, bankUser, plat, now) =>
      if amount <= 0.0 || bankUser != Some(user) || plat.None? || price > plat.value.sellPrice
         || !InHours(plat.value, now) then None
      else
        (match Post(w.book, FreezeCall(Key(user, coin), amount))
         case None => None
         case Some(book) =>
           Some(w.(book := book, orders := w.orders + [PlatOrder(user, coin, Sell, amount, price, Accepted)])))
    case Confirm(user, id) =>
      if 0 <= id < |w.orders| && w.orders[id].status.Accepted? && w.orders[id].userId == user then
        WithOrder(w, [], id, Paid)
      else None
    case Cancel(user, id) =>
      if 0 <= id < |w.orders| && w.orders[id].status.Accepted? && w.orders[id].userId == user then
        WithOrder(w, Refund(w.orders[id]), id, Canceled)
      else None
    case Complain(user, id) =>
      if 0 <= id < |w.orders| && w.orders[id].status.Paid? && w.orders[id].userId == user then
        WithOrder(w, [], id, Complaint)
      else None
    case AdminConfirm(id) =>
      if 0 <= id < |w.orders| && MayConfirm(w.orders[id]) then
        WithOrder(w, Settle(w.orders[id]), id, Done)
      else None
    case AdminCancel(id) =>
      if 0 <= id < |w.orders| && Open(w.orders[id]) then
        WithOrder(w, Refund(w.orders[id]), id, Canceled)
      else None
    case TransferOut(user, coin, amount, toPlatform, config, changeRate) =>
      if amount <= 0.0 || Key(user, coin) !in w.book.wallets || toPlatform || config.None?
         || amount < config.value.withdrawMin || amount > config.value.withdrawMax then None
      else
        (match FeeOf(amount, config.value.withdrawFeeRate, config.value.transferFeeSelect, changeRate)
         case None => None
         case Some(fee) =>
           var s := SendCoin(user, coin, amount, fee, Applying, true);
           match PostTogether(w.book, Legs(s, FreezeCall))
           case None => None
           case Some(book) => Some(w.(book := book, sends := w.sends + [s])))
    case TransferInner(user, coin, toUser, amount, config, changeRate, platCoin) =>
      if amount <= 0.0 || config.None? || config.value.transferEnable != 1
         || amount < config.value.transferMin || amount > config.value.transferMax then None
      else
        (match FeeOf(amount, config.value.transferFeeRate, config.value.transferFeeSelect, changeRate)
         case None => None
         case Some(fee) =>
           var from, feeFrom, to := Key(user, coin), Key(user, platCoin), Key(toUser, coin);
           match PostTogether(w.book, [CreditCall(from, -amount), CreditCall(feeFrom, -fee), CreditCall(to, amount)])
           case None => None
           case Some(book) =>
             Some(World(book, w.orders, w.sends + [SendCoin(user, coin, amount, fee, Passed, false)],
                        w.outside + [Flow(from, HalfUp(-amount)), Flow(feeFrom, HalfUp(-fee)),
                                     Flow(to, HalfUp(amount))])))
    case CheckPass(id, answer) =>
      if 0 <= id < |w.sends| && w.sends[id].status.Applying? && !answer.NoTxid? then
        WithSend(w, Legs(w.sends[id], SpendFrozenCall), id, if answer.Timeout? then Other else Passed)
      else None
    case CheckFail(id) =>
      if 0 <= id < |w.sends| && w.sends[id].status.Applying? then
        WithSend(w, Legs(w.sends[id], UnfreezeCall), id, Failed)
      else None
    case OtherService(call) =>
      if call.delta.freeze != 0.0 then None else
        (match Post(w.book, call)
         case None => None
         case Some(book) =>
           Some(w.(book := book, outside := w.outside + [Flow(call.key, HalfUp(call.delta.available))])))
  }

  function Refund(o: PlatOrder): seq<Call>
  {
    if o.kind.Sell? then [UnfreezeCall(OrderKey(o), o.amount)] else []
  }

  function Settle(o: PlatOrder): seq<Call>
  {
    if o.kind.Sell? then [SpendFrozenCall(OrderKey(o), o.amount)] else [CreditCall(OrderKey(o), o.amount)]
  }

  /** The administrator may confirm a sale unless the user marked it paid, and any open purchase. */
  predicate MayConfirm(o: PlatOrder)
  {
    Open(o) && (o.kind.Sell? ==> !o.status.Paid?)
  }

  // ---- what orders and withdrawals explain about a wallet

  /** An order's effect on a wallet: a sale is taken from the available money unless it was canceled
      and is frozen while it is open; a purchase is credited when it is done. */
  function OrderEffect(o: PlatOrder, k: Key, bucket: Bucket): int
  {
    if OrderKey(o) != k then 0 else
      match bucket
      case Available => if o.kind.Sell? then (if o.status.Canceled? then 0 else -HalfUp(o.amount))
                        else if o.status.Done? then HalfUp(o.amount) else 0
      case Freeze => if o.kind.Sell? && Open(o) then HalfUp(o.amount) else 0
      case Award => 0
  }

  /** The effect of one leg of a withdrawal: taken unless it failed, frozen while it is applied for. */
  function LegEffect(status: SendStatus, of: Key, amount: real, k: Key, bucket: Bucket): int
  {
    if of != k then 0 else
      match bucket
      case Available => if status.Failed? then 0 else -HalfUp(amount)
      case Freeze => if status.Applying? then HalfUp(amount) else 0
      case Award => 0
  }

  function SendEffect(s: SendCoin, k: Key, bucket: Bucket): int
  {
    if !s.external then 0 else
      LegEffect(s.status, SendKey(s), s.amount, k, bucket)
      + if s.fee > 0.0 then LegEffect(s.status, FeeKey(s), s.fee, k, bucket) else 0
  }

  function FlowEffect(f: Flow, k: Key, bucket: Bucket): int
  {
    if bucket.Available? && f.key == k then f.amount else 0
  }

  ghost function OrderEffects(k: Key, bucket: Bucket): PlatOrder -> int { o => OrderEffect(o, k, bucket) }
  ghost function SendEffects(k: Key, bucket: Bucket): SendCoin -> int { s => SendEffect(s, k, bucket) }
  ghost function FlowEffects(k: Key, bucket: Bucket): Flow -> int { f => FlowEffect(f, k, bucket) }

  ghost function Explained(w: World, k: Key, bucket: Bucket): int
  {
    SeqSum(w.orders, OrderEffects(k, bucket)) + SeqSum(w.sends, SendEffects(k, bucket))
    + SeqSum(w.outside, FlowEffects(k, bucket))
  }

  /** The invariant: what is available and what is frozen in every wallet is exactly what the orders,
      the withdrawals and the other movements explain. In particular the frozen money is the sum of
      the open sales, the withdrawals applied for and, in the BSTS wallet, their fees. */
  ghost predicate Accounted(w: World)
  {
    && (forall k :: k in w.book.wallets ==> NonNegative(w.book.wallets[k]))
    && (forall o :: o in w.orders ==> 0.0 < o.amount)
    && (forall s :: s in w.sends ==> 0.0 < s.amount && (s.status.Applying? ==> s.external))
    && (forall k, bucket :: bucket != Award ==> In(WalletOf(w.book, k), bucket) == Explained(w, k, bucket))
  }

  lemma SumOfLegs(s: SendCoin, leg: (Key, real) -> Call, k: Key, bucket: Bucket)
    ensures SeqSum(Legs(s, leg), Moves(k, bucket))
         == Moved(leg(SendKey(s), s.amount), k, bucket)
            + if s.fee > 0.0 then Moved(leg(FeeKey(s), s.fee), k, bucket) else 0
  {
    var fee := if s.fee > 0.0 then [leg(FeeKey(s), s.fee)] else [];
    SeqSumAppend(fee, leg(SendKey(s), s.amount), Moves(k, bucket));
    if s.fee > 0.0 {
      SeqSumAppend([], leg(FeeKey(s), s.fee), Moves(k, bucket));
      assert [] + fee == fee;
    }
  }

  lemma SumOfOne(c: Call, k: Key, bucket: Bucket)
    ensures SeqSum([c], Moves(k, bucket)) == Moved(c, k, bucket)
  {
    SeqSumAppend([], c, Moves(k, bucket));
    assert [] + [c] == [c];
  }

  // ---- every step keeps the invariant

  lemma OrderStepKeeps(w: World, calls: seq<Call>, id: int, status: OrderStatus)
    requires Accounted(w) && 0 <= id < |w.orders| && WithOrder(w, calls, id, status).Some?
    requires forall k, bucket :: bucket != Award ==>
               SeqSum(calls, Moves(k, bucket))
               == OrderEffect(w.orders[id].(status := status), k, bucket) - OrderEffect(w.orders[id], k, bucket)
    ensures Accounted(WithOrder(w, calls, id, status).value)
  {
    var after := WithOrder(w, calls, id, status).value;
    var row := w.orders[id].(status := status);
    TogetherMoves(w.book, calls);
    forall k, bucket | bucket != Award ensures In(WalletOf(after.book, k), bucket) == Explained(after, k, bucket) {
      SeqSumUpdate(w.orders, id, row, OrderEffects(k, bucket));
    }
  }

  lemma SendStepKeeps(w: World, calls: seq<Call>, id: int, status: SendStatus)
    requires Accounted(w) && 0 <= id < |w.sends| && !status.Applying? && WithSend(w, calls, id, status).Some?
    requires forall k, bucket :: bucket != Award ==>
               SeqSum(calls, Moves(k, bucket))
               == SendEffect(w.sends[id].(status := status), k, bucket) - SendEffect(w.sends[id], k, bucket)
    ensures Accounted(WithSend(w, calls, id, status).value)
  {
    var after := WithSend(w, calls, id, status).value;
    var row := w.sends[id].(status := status);
    TogetherMoves(w.book, calls);
    forall k, bucket | bucket != Award ensures In(WalletOf(after.book, k), bucket) == Explained(after, k, bucket) {
      SeqSumUpdate(w.sends, id, row, SendEffects(k, bucket));
    }
  }

  lemma RefundMoves(o: PlatOrder, k: Key, bucket: Bucket)
    requires Open(o) && bucket != Award
    ensures SeqSum(Refund(o), Moves(k, bucket))
         == OrderEffect(o.(status := Canceled), k, bucket) - OrderEffect(o, k, bucket)
  {
    HalfUpSymmetric(o.amount);
    if o.kind.Sell? {
      SumOfOne(UnfreezeCall(OrderKey(o), o.amount), k, bucket);
    }
  }

  lemma SettleMoves(o: PlatOrder, k: Key, bucket: Bucket)
    requires Open(o) && bucket != Award
    ensures SeqSum(Settle(o), Moves(k, bucket))
         == OrderEffect(o.(status := Done), k, bucket) - OrderEffect(o, k, bucket)
  {
    HalfUpSymmetric(o.amount);
    HalfUpWhole(0);
    SumOfOne(Settle(o)[0], k, bucket);
  }

  /** Spending a frozen leg turns its effect into that of a passed withdrawal, unfreezing it into none. */
  lemma LegMoves(of: Key, amount: real, status: SendStatus, k: Key, bucket: Bucket)
    requires bucket != Award && !status.Applying?
    ensures !status.Failed? ==>
              Moved(SpendFrozenCall(of, amount), k, bucket)
              == LegEffect(status, of, amount, k, bucket) - LegEffect(Applying, of, amount, k, bucket)
    ensures status.Failed? ==>
              Moved(UnfreezeCall(of, amount), k, bucket)
              == LegEffect(status, of, amount, k, bucket) - LegEffect(Applying, of, amount, k, bucket)
  {
    HalfUpSymmetric(amount);
    HalfUpWhole(0);
  }

  lemma PassMoves(s: SendCoin, status: SendStatus, k: Key, bucket: Bucket)
    requires s.external && s.status.Applying? && (status.Passed? || status.Other?) && bucket != Award
    ensures SeqSum(Legs(s, SpendFrozenCall), Moves(k, bucket))
         == SendEffect(s.(status := status), k, bucket) - SendEffect(s, k, bucket)
  {
    LegMoves(SendKey(s), s.amount, status, k, bucket);
    LegMoves(FeeKey(s), s.fee, status, k, bucket);
    SumOfLegs(s, SpendFrozenCall, k, bucket);
  }

  lemma FailMoves(s: SendCoin, k: Key, bucket: Bucket)
    requires s.external && s.status.Applying? && bucket != Award
    ensures SeqSum(Legs(s, UnfreezeCall), Moves(k, bucket))
         == SendEffect(s.(status := Failed), k, bucket) - SendEffect(s, k, bucket)
  {
    LegMoves(SendKey(s), s.amount, Failed, k, bucket);
    LegMoves(FeeKey(s), s.fee, Failed, k, bucket);
    SumOfLegs(s, UnfreezeCall, k, bucket);
  }

  lemma NewOrderKeeps(w: World, calls: seq<Call>, o: PlatOrder)
    requires Accounted(w) && 0.0 < o.amount && PostTogether(w.book, calls).Some?
    requires forall k, bucket :: bucket != Award ==> SeqSum(calls, Moves(k, bucket)) == OrderEffect(o, k, bucket)
    ensures Accounted(w.(book := PostTogether(w.book, calls).value, orders := w.orders + [o]))
  {
    TogetherMoves(w.book, calls);
    forall k, bucket | bucket != Award
      ensures SeqSum(w.orders + [o], OrderEffects(k, bucket))
           == SeqSum(w.orders, OrderEffects(k, bucket)) + SeqSum(calls, Moves(k, bucket))
    {
      SeqSumAppend(w.orders, o, OrderEffects(k, bucket));
    }
  }

  lemma NewSendKeeps(w: World, calls: seq<Call>, s: SendCoin, flows: seq<Flow>)
    requires Accounted(w) && 0.0 < s.amount && (s.status.Applying? ==> s.external) && PostTogether(w.book, calls).Some?
    requires forall k, bucket :: bucket != Award ==>
               SeqSum(calls, Moves(k, bucket)) == SendEffect(s, k, bucket) + SeqSum(flows, FlowEffects(k, bucket))
    ensures Accounted(World(PostTogether(w.book, calls).value, w.orders, w.sends + [s], w.outside + flows))
  {
    TogetherMoves(w.book, calls);
    forall k, bucket | bucket != Award
      ensures SeqSum(w.sends + [s], SendEffects(k, bucket)) + SeqSum(w.outside + flows, FlowEffects(k, bucket))
           == SeqSum(w.sends, SendEffects(k, bucket)) + SeqSum(w.outside, FlowEffects(k, bucket))
              + SeqSum(calls, Moves(k, bucket))
    {
      SeqSumAppend(w.sends, s, SendEffects(k, bucket));
      SeqSumConcat(w.outside, flows, FlowEffects(k, bucket));
    }
  }
}
