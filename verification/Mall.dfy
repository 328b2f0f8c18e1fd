/** MallOrderService as a state machine: goods with a stock, orders, and the buyers' and sellers'
    wallets. Prices are whole units of 1e-8 coin. */
module Mall {
  import opened Ledgers
  import opened Rounding
  import opened Sums

  datatype OrderStatus = Unsent | Sent | Success | Canceled

  datatype ReturnStatus = Normal | Returning | Returned

  /** A row of t_mall_order; its id is its position in the table. */
  datatype Order = Order(buyer: int, seller: int, good: int, count: int, total: int, coin: string,
                         status: OrderStatus, returned: ReturnStatus)

  datatype Good = Good(seller: int, price: int, stock: int, sales: int)

  datatype Shop = Shop(book: Book, orders: seq<Order>, goods: map<int, Good>)

  /** What one line of a purchase asks for. */
  datatype Line = Line(good: int, count: int)

  /** Settings that do not change: who invited whom, the rebate percentages, the goods that have a
      picture (the seller's order queries join it), and the sellers that have a shop. */
  datatype Setup = Setup(invites: map<int, Option<int>>, buyRebate: int, oneLevel: int, twoLevel: int,
                         pictured: set<int>, shops: set<int>)

  datatype Step =
    | Pay(buyer: int, coin: string, lines: seq<Line>, rateKnown: bool)
    | Send(id: int)
    | Return(id: int, proof: bool)
    | ConfirmReturn(id: int)
    | CancelUnsent(id: int)
    | Confirm(id: int)

  function MoveToFrozen(k: Key, total: int): Call { Call(k, Delta(-(total as real), total as real, 0.0)) }
  function MoveBack(k: Key, total: int): Call { Call(k, Delta(total as real, -(total as real), 0.0)) }
  function TakeAward(k: Key, total: int): Call { Call(k, Delta(0.0, 0.0, -(total as real))) }
  function Give(k: Key, amount: real): Call { Call(k, Delta(amount, 0.0, 0.0)) }
  function GiveAward(k: Key, amount: real): Call { Call(k, Delta(0.0, 0.0, amount)) }

  function BuyerKey(o: Order): Key { Key(o.buyer, o.coin) }
  function SellerKey(o: Order): Key { Key(o.seller, o.coin) }

  // ---- paying

  function PriceOf(goods: map<int, Good>, line: Line): int
  {
    if line.good in goods then line.count * goods[line.good].price else 0
  }

  function NewOrder(s: Shop, buyer: int, coin: string, line: Line): Order
    requires line.good in s.goods
  {
    var g := s.goods[line.good];
    Order(buyer, g.seller, line.good, line.count, PriceOf(s.goods, line), coin, Unsent, Normal)
  }

  /** One line: refused for a count that is not positive, an unknown good or too little stock. */
  function PayLine(s: Shop, buyer: int, coin: string, line: Line): Option<Shop>
  {
    if line.count <= 0 || line.good !in s.goods || s.goods[line.good].stock < line.count then None
    else
      var g := s.goods[line.good];
      Some(s.(orders := s.orders + [NewOrder(s, buyer, coin, line)],
              goods := s.goods[line.good := g.(stock := g.stock - line.count)]))
  }

  function PayLines(s: Shop, buyer: int, coin: string, lines: seq<Line>): Option<Shop>
  {
    if lines == [] then Some(s) else
      match PayLines(s, buyer, coin, lines[..|lines| - 1])
      case None => None
      case Some(before) => PayLine(before, buyer, coin, lines[|lines| - 1])
  }

  ghost function Prices(goods: map<int, Good>): Line -> int { line => PriceOf(goods, line) }

  /** The price of a whole cart. */
  ghost function CartTotal(goods: map<int, Good>, lines: seq<Line>): int
  {
    SeqSum(lines, Prices(goods))
  }

  ghost function CountsOf(good: int): Line -> int { (line: Line) => if line.good == good then line.count else 0 }

  /** How many pieces of a good a cart asks for, over all of its lines. */
  ghost function Asked(lines: seq<Line>, good: int): int
  {
    SeqSum(lines, CountsOf(good))
  }

  function TotalOf(lines: seq<Line>, goods: map<int, Good>): int
  {
    if lines == [] then 0 else TotalOf(lines[..|lines| - 1], goods) + PriceOf(goods, lines[|lines| - 1])
  }

  // ---- the other requests

  predicate Live(o: Order)
  {
    o.status != Success && o.status != Canceled && o.returned != Returned
  }

  function Settled(s: Shop, calls: seq<Call>, id: int, row: Order, restock: int, sold: int): Option<Shop>
    requires 0 <= id < |s.orders|
  {
    if row.good !in s.goods then None else
      match PostTogether(s.book, calls)
      case None => None
      case Some(book) =>
        var g := s.goods[row.good];
        Some(Shop(book, s.orders[id := row],
            s.goods[row.good := g.(stock := g.stock + restock, sales := g.sales + sold)]))
  }

  /** Looking up who invited the buyer, and who invited that one, breaks off on a missing link, and then
      nobody gets a rebate. */
  predicate FindsReferrers(u: Setup, o: Order)
  {
    && o.buyer in u.invites && u.invites[o.buyer].Some?
    && var one := u.invites[o.buyer].value; one in u.invites ==> u.invites[one].Some?
  }

  predicate IsOne(u: Setup, o: Order, user: int)
  {
    FindsReferrers(u, o) && user == u.invites[o.buyer].value && user in u.invites
  }

  predicate IsTwo(u: Setup, o: Order, user: int)
  {
    && FindsReferrers(u, o)
    && var one := u.invites[o.buyer].value; one in u.invites && user == u.invites[one].value && user in u.invites
  }

  /** The rebates of a confirmed order: to the buyer as award, to the two levels of referrers as money. */
  function Rebates(u: Setup, o: Order): seq<Call>
  {
    Gifts(u, o, Percent(o.total, u.buyRebate), Percent(o.total, u.oneLevel), Percent(o.total, u.twoLevel))
  }

  function Gifts(u: Setup, o: Order, mine: real, first: real, second: real): seq<Call>
  {
    if !FindsReferrers(u, o) then [] else
      var one := u.invites[o.buyer].value;
      var two := if one in u.invites then u.invites[one].value else one;
      When(u.buyRebate >= 0, GiveAward(BuyerKey(o), mine))
      + When(u.oneLevel > 0 && IsOne(u, o, one), Give(Key(one, o.coin), first))
      + When(u.twoLevel > 0 && IsTwo(u, o, two), Give(Key(two, o.coin), second))
  }

  function When(c: bool, call: Call): seq<Call>
  {
    if c then [call] else []
  }

  function Percent(total: int, percent: int): real
  {
    Times(total as real, percent as real / 100.0)
  }

  function Payment(o: Order): seq<Call>
  {
    [TakeAward(BuyerKey(o), o.total), Give(SellerKey(o), o.total as real)]
  }

  /** Confirming looks for the shop of the good's seller. */
  predicate SellerHasShop(u: Setup, s: Shop, o: Order)
  {
    o.good in s.goods && s.goods[o.good].seller in u.shops
  }

  function Next(u: Setup, s: Shop, step: Step): Option<Shop>
  {
    match step
    case Pay(buyer, coin, lines, rateKnown) =>
      if !rateKnown then None else
        (match PayLines(s, buyer, coin, lines)
         case None => None
         case Some(paid) =>
           match Post(s.book, MoveToFrozen(Key(buyer, coin), TotalOf(lines, s.goods)))
           case None => None
           case Some(book) => Some(paid.(book := book)))
    case Send(id) =>
      if 0 <= id < |s.orders| && s.orders[id].status != Sent then
        Some(s.(orders := s.orders[id := s.orders[id].(status := Sent)]))
      else None
    case Return(id, proof) =>
      if 0 <= id < |s.orders| && s.orders[id].returned != Returning && (s.orders[id].status == Unsent || proof) then
        Some(s.(orders := s.orders[id := s.orders[id].(returned := Returning)]))
      else None
    case ConfirmReturn(id) =>
      if 0 <= id < |s.orders| && Live(s.orders[id]) then
        var o := s.orders[id];
        Settled(s, [MoveBack(BuyerKey(o), o.total)], id, o.(returned := Returned), o.count, 0)
      else None
    case CancelUnsent(id) =>
      if 0 <= id < |s.orders| && Live(s.orders[id]) then
        var o := s.orders[id];
        Settled(s, [MoveBack(BuyerKey(o), o.total)], id, o.(status := Canceled), o.count, 0)
      else None
    case Confirm(id) =>
      if 0 <= id < |s.orders| && Live(s.orders[id]) && s.orders[id].returned == Normal
         && SellerHasShop(u, s, s.orders[id]) then
        var o := s.orders[id];
        Settled(s, Payment(o) + Rebates(u, o), id, o.(status := Success), 0, o.count)
      else None
  }

  /** A run of requests, where a refused request changes nothing. */
  function Run(u: Setup, s: Shop, steps: seq<Step>): Shop
  {
    if steps == [] then s else
      var before := Run(u, s, steps[..|steps| - 1]);
      match Next(u, before, steps[|steps| - 1])
      case None => before
      case Some(after) => after
  }

  lemma RunLast(u: Setup, s: Shop, steps: seq<Step>, step: Step)
    ensures var before := Run(u, s, steps);
            Run(u, s, steps + [step]) == if Next(u, before, step).Some? then Next(u, before, step).value else before
  {
    assert (steps + [step])[..|steps|] == steps;
  }

  // ---- what a purchase does, line order and repeated goods notwithstanding

  /** Everything a cart needs: positive counts of known goods, and of each good enough for all lines. */
  ghost predicate Served(goods: map<int, Good>, lines: seq<Line>)
  {
    && (forall i :: 0 <= i < |lines| ==> 0 < lines[i].count && lines[i].good in goods)
    && (forall g :: g in goods && (exists i :: 0 <= i < |lines| && lines[i].good == g) ==>
          Asked(lines, g) <= goods[g].stock)
  }

  ghost predicate Paid(s: Shop, paid: Shop, buyer: int, coin: string, lines: seq<Line>)
  {
    && paid.book == s.book && paid.goods.Keys == s.goods.Keys
    && (forall g :: g in s.goods ==> paid.goods[g] == s.goods[g].(stock := s.goods[g].stock - Asked(lines, g)))
    && |paid.orders| == |s.orders| + |lines| && s.orders <= paid.orders
    && (forall i :: 0 <= i < |lines| ==>
          lines[i].good in s.goods && paid.orders[|s.orders| + i] == NewOrder(s, buyer, coin, lines[i]))
  }

  lemma AskedLast(lines: seq<Line>, g: int)
    requires lines != []
    ensures Asked(lines, g) == Asked(lines[..|lines| - 1], g) + CountsOf(g)(lines[|lines| - 1])
  {
  }

  /** A cart goes through exactly when its summed demands are served, and then it lowers every stock by
      the summed demand and appends one order per line. */
  lemma {:induction false} CartGoesThrough(s: Shop, buyer: int, coin: string, lines: seq<Line>)
    ensures PayLines(s, buyer, coin, lines).Some? <==> Served(s.goods, lines)
    ensures PayLines(s, buyer, coin, lines).Some? ==> Paid(s, PayLines(s, buyer, coin, lines).value, buyer, coin, lines)
  {
    if lines != [] {
      var n := |lines| - 1;
      var before, last := lines[..n], lines[n];
      CartGoesThrough(s, buyer, coin, before);
      ServedStep(s.goods, lines);
      if PayLines(s, buyer, coin, before).Some? {
        PaidStep(s, PayLines(s, buyer, coin, before).value, buyer, coin, lines);
      }
    }
  }

  /** One more line is served when the earlier ones are and the rest of the stock suffices. */
  lemma ServedStep(goods: map<int, Good>, lines: seq<Line>)
    requires lines != []
    ensures var before, last := lines[..|lines| - 1], lines[|lines| - 1];
            Served(goods, lines) <==>
              Served(goods, before) && 0 < last.count && last.good in goods
              && last.count <= goods[last.good].stock - Asked(before, last.good)
  {
    var n := |lines| - 1;
    var before, last := lines[..n], lines[n];
    if Served(goods, lines) {
      assert lines[n].good == last.good;
      AskedLast(lines, last.good);
      forall g | g in goods && exists i :: 0 <= i < n && before[i].good == g
        ensures Asked(before, g) <= goods[g].stock
      {
        var i :| 0 <= i < n && before[i].good == g;
        assert lines[i].good == g;
        AskedLast(lines, g);
      }
    }
    if Served(goods, before) && 0 < last.count && last.good in goods
       && last.count <= goods[last.good].stock - Asked(before, last.good) {
      forall i | 0 <= i < |lines| ensures 0 < lines[i].count && lines[i].good in goods {
        assert i < n ==> lines[i] == before[i];
      }
      forall g | g in goods && exists i :: 0 <= i < |lines| && lines[i].good == g
        ensures Asked(lines, g) <= goods[g].stock
      {
        AskedLast(lines, g);
        if g != last.good {
          var i :| 0 <= i < |lines| && lines[i].good == g;
          assert before[i].good == g;
        }
      }
    }
  }

  lemma PaidStep(s: Shop, paid: Shop, buyer: int, coin: string, lines: seq<Line>)
    requires lines != [] && Paid(s, paid, buyer, coin, lines[..|lines| - 1])
    ensures var last := lines[|lines| - 1];
            PayLine(paid, buyer, coin, last).Some? <==>
              0 < last.count && last.good in s.goods
              && last.count <= s.goods[last.good].stock - Asked(lines[..|lines| - 1], last.good)
    ensures PayLine(paid, buyer, coin, lines[|lines| - 1]).Some? ==>
              Paid(s, PayLine(paid, buyer, coin, lines[|lines| - 1]).value, buyer, coin, lines)
  {
    var n := |lines| - 1;
    var before, last := lines[..n], lines[n];
    if PayLine(paid, buyer, coin, last).Some? {
      var after := PayLine(paid, buyer, coin, last).value;
      forall g | g in s.goods ensures after.goods[g] == s.goods[g].(stock := s.goods[g].stock - Asked(lines, g)) {
        AskedLast(lines, g);
      }
      forall i | 0 <= i < |lines|
        ensures lines[i].good in s.goods && after.orders[|s.orders| + i] == NewOrder(s, buyer, coin, lines[i])
      {
        assert i < n ==> lines[i] == before[i];
      }
    }
  }

  lemma {:induction false} TotalIsSum(lines: seq<Line>, goods: map<int, Good>)
    ensures TotalOf(lines, goods) == CartTotal(goods, lines)
  {
    if lines != [] {
      TotalIsSum(lines[..|lines| - 1], goods);
    }
  }

  /** payOrder, for every cart: it succeeds exactly when all demands together are in stock and the buyer
      has the money, and then moves exactly the price of the cart from available to frozen. */
  lemma PurchaseMovesItsPrice(u: Setup, s: Shop, buyer: int, coin: string, lines: seq<Line>)
    requires forall k :: k in s.book.wallets ==> NonNegative(s.book.wallets[k])
    requires forall g :: g in s.goods ==> 0 <= s.goods[g].price
    ensures var after, w := Next(u, s, Pay(buyer, coin, lines, true)), WalletOf(s.book, Key(buyer, coin));
            && (after.Some? <==> Served(s.goods, lines) && CartTotal(s.goods, lines) <= w.available)
            && (after.Some? ==>
                  && Paid(s, after.value.(book := s.book), buyer, coin, lines)
                  && WalletOf(after.value.book, Key(buyer, coin))
                     == Wallet(w.available - CartTotal(s.goods, lines), w.freeze + CartTotal(s.goods, lines), w.award)
                  && forall k :: k != Key(buyer, coin) ==> WalletOf(after.value.book, k) == WalletOf(s.book, k))
  {
    CartGoesThrough(s, buyer, coin, lines);
    TotalIsSum(lines, s.goods);
    var total := TotalOf(lines, s.goods);
    HalfUpWhole(total);
    HalfUpWhole(-total);
    HalfUpWhole(0);
    if Served(s.goods, lines) {
      forall line | line in lines ensures 0 <= Prices(s.goods)(line) {
        NonNegativeProduct(line.count, s.goods[line.good].price);
      }
      SeqSumNonNegative(lines, Prices(s.goods));
    }
  }

  lemma OneLine(goods: map<int, Good>, line: Line)
    ensures CartTotal(goods, [line]) == PriceOf(goods, line)
    ensures forall g :: Asked([line], g) == CountsOf(g)(line)
    ensures 0 < line.count && line.good in goods && line.count <= goods[line.good].stock ==> Served(goods, [line])
  {
    SeqSumAppend([], line, Prices(goods));
    assert [] + [line] == [line];
    forall g ensures Asked([line], g) == CountsOf(g)(line) {
      SeqSumAppend([], line, CountsOf(g));
    }
  }

  /** Buying one good. */
  lemma PayForOne(u: Setup, s: Shop, buyer: int, coin: string, line: Line)
    requires forall k :: k in s.book.wallets ==> NonNegative(s.book.wallets[k])
    requires forall g :: g in s.goods ==> 0 <= s.goods[g].price
    requires line.good in s.goods && 0 < line.count <= s.goods[line.good].stock
    requires PriceOf(s.goods, line) <= WalletOf(s.book, Key(buyer, coin)).available
    ensures var after, w := Next(u, s, Pay(buyer, coin, [line], true)), WalletOf(s.book, Key(buyer, coin));
            var price := PriceOf(s.goods, line);
            && after.Some? && after.value.orders == s.orders + [NewOrder(s, buyer, coin, line)]
            && WalletOf(after.value.book, Key(buyer, coin)) == Wallet(w.available - price, w.freeze + price, w.award)
            && (forall k :: k != Key(buyer, coin) ==> WalletOf(after.value.book, k) == WalletOf(s.book, k))
            && (var g := s.goods[line.good];
                after.value.goods == s.goods[line.good := g.(stock := g.stock - line.count)])
  {
    OneLine(s.goods, line);
    PurchaseMovesItsPrice(u, s, buyer, coin, [line]);
    var paid := Next(u, s, Pay(buyer, coin, [line], true)).value;
    assert paid.orders[|s.orders| + 0] == NewOrder(s, buyer, coin, [line][0]);
    assert paid.orders == s.orders + [NewOrder(s, buyer, coin, line)];
    forall g | g in s.goods
      ensures paid.goods[g] == s.goods[g].(stock := s.goods[g].stock - if g == line.good then line.count else 0)
    {
      assert Asked([line], g) == CountsOf(g)(line);
    }
  }

  lemma NonNegativeProduct(a: int, b: int)
    requires 0 <= a && 0 <= b
    ensures 0 <= a * b
  {
  }
}
