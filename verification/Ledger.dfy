/** UserCoinService: the ledger primitive `changeUserCoin`, its wallets and its bills. */
module Ledgers {
  import opened Rounding
  import opened Sums

  /** A row of t_user_coin, in units of 1e-8 coin. */
  datatype Wallet = Wallet(available: int, freeze: int, award: int)

  datatype Key = Key(user: int, coin: string)

  datatype Bucket = Available | Freeze | Award

  /** A row of t_user_bill. */
  datatype Bill = Bill(key: Key, bucket: Bucket, amount: int)

  /** The three requested changes, before rounding to eight places. */
  datatype Delta = Delta(available: real, freeze: real, award: real)

  datatype Call = Call(key: Key, delta: Delta)

  datatype Book = Book(wallets: map<Key, Wallet>, bills: seq<Bill>)

  const EMPTY_WALLET := Wallet(0, 0, 0)
  const NO_CHANGE := Delta(0.0, 0.0, 0.0)

  function In(w: Wallet, bucket: Bucket): int
  {
    match bucket
    case Available => w.available
    case Freeze => w.freeze
    case Award => w.award
  }

  function Change(d: Delta, bucket: Bucket): real
  {
    match bucket
    case Available => d.available
    case Freeze => d.freeze
    case Award => d.award
  }

  predicate NonNegative(w: Wallet)
  {
    0 <= w.available && 0 <= w.freeze && 0 <= w.award
  }

  /** A wallet that was never created reads as three zeros. */
  function WalletOf(b: Book, k: Key): Wallet
  {
    if k in b.wallets then b.wallets[k] else EMPTY_WALLET
  }

  function Added(w: Wallet, d: Delta): Wallet
  {
    Wallet(w.available + HalfUp(d.available), w.freeze + HalfUp(d.freeze), w.award + HalfUp(d.award))
  }

  function BillFor(c: Call, bucket: Bucket): seq<Bill>
  {
    var change := Change(c.delta, bucket);
    if change == 0.0 then [] else [Bill(c.key, bucket, HalfUp(change))]
  }

  /** What a call is meant to do: add the rounded changes to the wallet, or fail and do nothing when
      a bucket would become negative. */
  function Post(b: Book, c: Call): Option<Book>
  {
    if c.delta == NO_CHANGE then Some(b) else
      var w := Added(WalletOf(b, c.key), c.delta);
      if NonNegative(w) then
        Some(Book(b.wallets[c.key := w],
                  b.bills + BillFor(c, Available) + BillFor(c, Freeze) + BillFor(c, Award)))
      else
        None
  }

  /** A sequence of calls, where a failing call leaves the books as they are. */
  function PostEach(b: Book, calls: seq<Call>): Book
  {
    if calls == [] then b else
      var before := PostEach(b, calls[..|calls| - 1]);
      match Post(before, calls[|calls| - 1])
      case None => before
      case Some(after) => after
  }

  /** All of the calls inside one transaction: the first failure undoes everything. */
  function PostTogether(b: Book, calls: seq<Call>): Option<Book>
    decreases |calls|
  {
    if calls == [] then Some(b) else
      match Post(b, calls[0])
      case None => None
      case Some(after) => PostTogether(after, calls[1..])
  }

  ghost function BilledTo(k: Key, bucket: Bucket): Bill -> int
  {
    (bill: Bill) => if bill.key == k && bill.bucket == bucket then bill.amount else 0
  }

  /** Every balance is non-negative and is the sum of the bills that were written about it. */
  ghost predicate Balanced(b: Book)
  {
    && (forall k :: k in b.wallets ==> NonNegative(b.wallets[k]))
    && (forall k, bucket :: In(WalletOf(b, k), bucket) == SeqSum(b.bills, BilledTo(k, bucket)))
  }

  lemma BillForSum(bills: seq<Bill>, c: Call, bucket: Bucket, k: Key, other: Bucket)
    ensures SeqSum(bills + BillFor(c, bucket), BilledTo(k, other))
         == SeqSum(bills, BilledTo(k, other))
            + if k == c.key && other == bucket then HalfUp(Change(c.delta, bucket)) else 0
  {
    if Change(c.delta, bucket) == 0.0 {
      assert bills + BillFor(c, bucket) == bills;
      HalfUpWhole(0);
    } else {
      SeqSumAppend(bills, BillFor(c, bucket)[0], BilledTo(k, other));
    }
  }

  function Moved(c: Call, k: Key, bucket: Bucket): int
  {
    if c.key == k then HalfUp(Change(c.delta, bucket)) else 0
  }

  ghost function Moves(k: Key, bucket: Bucket): Call -> int { c => Moved(c, k, bucket) }

  lemma PostMoves(b: Book, c: Call, k: Key, bucket: Bucket)
    requires Post(b, c).Some?
    ensures In(WalletOf(Post(b, c).value, k), bucket) == In(WalletOf(b, k), bucket) + Moved(c, k, bucket)
  {
    HalfUpWhole(0);
  }

  /** The bills of a call sum to what it moves. */
  lemma BillsSum(bills: seq<Bill>, c: Call, k: Key, bucket: Bucket)
    ensures SeqSum(bills + BillFor(c, Available) + BillFor(c, Freeze) + BillFor(c, Award), BilledTo(k, bucket))
         == SeqSum(bills, BilledTo(k, bucket)) + Moved(c, k, bucket)
  {
    BillForSum(bills, c, Available, k, bucket);
    BillForSum(bills + BillFor(c, Available), c, Freeze, k, bucket);
    BillForSum(bills + BillFor(c, Available) + BillFor(c, Freeze), c, Award, k, bucket);
  }

  /** A call moves a bucket by what it bills. */
  lemma PostBills(b: Book, c: Call, k: Key, bucket: Bucket)
    requires Post(b, c).Some? && In(WalletOf(b, k), bucket) == SeqSum(b.bills, BilledTo(k, bucket))
    ensures In(WalletOf(Post(b, c).value, k), bucket) == SeqSum(Post(b, c).value.bills, BilledTo(k, bucket))
  {
    if c.delta != NO_CHANGE {
      BillsSum(b.bills, c, k, bucket);
      PostMoves(b, c, k, bucket);
    }
  }

  /** A call keeps the books balanced. */
  lemma PostKeepsBalance(b: Book, c: Call)
    requires Balanced(b) && Post(b, c).Some?
    ensures Balanced(Post(b, c).value)
  {
    var after := Post(b, c).value;
    forall k, bucket
      ensures In(WalletOf(after, k), bucket) == SeqSum(after.bills, BilledTo(k, bucket))
    {
      PostBills(b, c, k, bucket);
    }
  }

  /** Over every sequence of calls, failing ones included, no balance becomes negative and every
      bucket equals the sum of its recorded bills. */
  lemma {:induction false} EveryRunBalances(b: Book, calls: seq<Call>)
    requires Balanced(b)
    ensures Balanced(PostEach(b, calls))
  {
    if calls != [] {
      var before := PostEach(b, calls[..|calls| - 1]);
      EveryRunBalances(b, calls[..|calls| - 1]);
      if Post(before, calls[|calls| - 1]).Some? {
        PostKeepsBalance(before, calls[|calls| - 1]);
      }
    }
  }

  lemma {:induction false} TogetherKeepsBalance(b: Book, calls: seq<Call>)
    requires Balanced(b) && PostTogether(b, calls).Some?
    ensures Balanced(PostTogether(b, calls).value)
    decreases |calls|
  {
    if calls != [] {
      PostKeepsBalance(b, calls[0]);
      TogetherKeepsBalance(Post(b, calls[0]).value, calls[1..]);
    }
  }

  /** A change followed by its opposite restores the wallet exactly, whatever was rounded away. */
  lemma ReversalRestores(b: Book, k: Key, d: Delta)
    requires Balanced(b)
    requires Post(b, Call(k, d)).Some?
    ensures var back := Call(k, Delta(-d.available, -d.freeze, -d.award));
            var there := Post(b, Call(k, d)).value;
            Post(there, back).Some? && WalletOf(Post(there, back).value, k) == WalletOf(b, k)
  {
    HalfUpSymmetric(d.available);
    HalfUpSymmetric(d.freeze);
    HalfUpSymmetric(d.award);
  }

  // ---- what a transaction moves

  lemma PostKeepsNonNegative(b: Book, c: Call)
    requires Post(b, c).Some?
    requires forall k :: k in b.wallets ==> NonNegative(b.wallets[k])
    ensures forall k :: k in Post(b, c).value.wallets ==> NonNegative(Post(b, c).value.wallets[k])
  {
  }

  /** A transaction moves each wallet by the sum of its calls. */
  lemma {:induction false} TogetherMoves(b: Book, calls: seq<Call>)
    requires PostTogether(b, calls).Some?
    requires forall k :: k in b.wallets ==> NonNegative(b.wallets[k])
    ensures var after := PostTogether(b, calls).value;
            && (forall k :: k in after.wallets ==> NonNegative(after.wallets[k]))
            && (forall k, bucket ::
                  In(WalletOf(after, k), bucket) == In(WalletOf(b, k), bucket) + SeqSum(calls, Moves(k, bucket)))
    decreases |calls|
  {
    if calls != [] {
      var next := Post(b, calls[0]).value;
      PostKeepsNonNegative(b, calls[0]);
      TogetherMoves(next, calls[1..]);
      forall k, bucket
        ensures In(WalletOf(PostTogether(b, calls).value, k), bucket)
             == In(WalletOf(b, k), bucket) + SeqSum(calls, Moves(k, bucket))
      {
        PostMoves(b, calls[0], k, bucket);
        SeqSumConcat([calls[0]], calls[1..], Moves(k, bucket));
        SeqSumAppend([], calls[0], Moves(k, bucket));
        assert [calls[0]] + calls[1..] == calls;
        assert [] + [calls[0]] == [calls[0]];
      }
    }
  }

  /** Exactly: a change rounds each of its three parts, is refused if one would become negative, and
      otherwise adds them to the wallet and appends a bill for each part that is not zero. */
  lemma PostExactly(b: Book, k: Key, available: real, freeze: real, award: real)
    requires available != 0.0 || freeze != 0.0 || award != 0.0
    ensures var w := if k in b.wallets then b.wallets[k] else Wallet(0, 0, 0);
            var x, y, z := w.available + HalfUp(available), w.freeze + HalfUp(freeze), w.award + HalfUp(award);
            Post(b, Call(k, Delta(available, freeze, award)))
            == if 0 <= x && 0 <= y && 0 <= z then
                 Some(Book(b.wallets[k := Wallet(x, y, z)],
                           b.bills + (if available == 0.0 then [] else [Bill(k, Available, HalfUp(available))])
                                   + (if freeze == 0.0 then [] else [Bill(k, Freeze, HalfUp(freeze))])
                                   + (if award == 0.0 then [] else [Bill(k, Award, HalfUp(award))])))
               else None
  {
  }

  // ---- calls in whole units

  function If(c: bool, amount: int): int
  {
    if c then amount else 0
  }

  ghost predicate NoDebts(b: Book)
  {
    forall k :: k in b.wallets ==> NonNegative(b.wallets[k])
  }

  /** A call that moves so many units of available and frozen money, and no award. */
  ghost predicate Shifts(c: Call, available: int, freeze: int)
  {
    HalfUp(c.delta.available) == available && HalfUp(c.delta.freeze) == freeze && HalfUp(c.delta.award) == 0
  }

  predicate Fits(w: Wallet, available: int, freeze: int)
  {
    0 <= w.available + available && 0 <= w.freeze + freeze
  }

  function Shifted(w: Wallet, available: int, freeze: int): Wallet
  {
    Wallet(w.available + available, w.freeze + freeze, w.award)
  }

  /** What posting a call does to every wallet, and when it is refused. */
  lemma PostShifts(b: Book, c: Call, available: int, freeze: int)
    requires NoDebts(b) && Shifts(c, available, freeze)
    ensures Post(b, c).Some? <==> Fits(WalletOf(b, c.key), available, freeze)
    ensures Post(b, c).Some? ==>
              && NoDebts(Post(b, c).value)
              && forall k :: WalletOf(Post(b, c).value, k)
                             == Shifted(WalletOf(b, k), If(k == c.key, available), If(k == c.key, freeze))
  {
    HalfUpWhole(0);
  }

  class Ledger {
    var wallets: map<Key, Wallet>
    var bills: seq<Bill>

    ghost function Books(): Book
      reads this
    {
      Book(wallets, bills)
    }

    constructor ()
      ensures Books() == Book(map[], []) && Balanced(Books())
    {
      wallets, bills := map[], [];
      new;
      assert forall k, bucket :: SeqSum<Bill>([], BilledTo(k, bucket)) == 0;
    }

    /** The mapper's guarded UPDATE: it touches the row only if no bucket becomes negative, and
        returns the number of rows it changed. */
    method UpdateRow(k: Key, available: int, freeze: int, award: int) returns (count: nat)
      modifies this`wallets
      ensures count == 1 <==>
              && k in old(wallets)
              && old(wallets)[k].available >= -available
              && old(wallets)[k].freeze >= -freeze
              && old(wallets)[k].award >= -award
      ensures count == 0 || count == 1
      ensures count == 0 ==> wallets == old(wallets)
      ensures count == 1 ==>
              && wallets.Keys == old(wallets).Keys
              && wallets[k].available == old(wallets)[k].available + available
              && wallets[k].freeze == old(wallets)[k].freeze + freeze
              && wallets[k].award == old(wallets)[k].award + award
              && forall other :: other in wallets && other != k ==> wallets[other] == old(wallets)[other]
    {
      count := 0;
      if k in wallets {
        var w := wallets[k];
        if w.available >= -available && w.freeze >= -freeze && w.award >= -award {
          wallets := wallets[k := Wallet(w.available + available, w.freeze + freeze, w.award + award)];
          count := 1;
        }
      }
    }

    /** changeUserCoin: try the update; on a missing wallet create an empty one and try again; on a
        failure roll the transaction back. */
    method ChangeUserCoin(k: Key, d: Delta) returns (ok: bool)
      modifies this
      ensures ok == Post(old(Books()), Call(k, d)).Some?
      ensures Books() == if ok then Post(old(Books()), Call(k, d)).value else old(Books())
    {
      if d.available == 0.0 && d.freeze == 0.0 && d.award == 0.0 {
        return true;
      }
      var atStart := wallets;
      var available, freeze, award := HalfUp(d.available), HalfUp(d.freeze), HalfUp(d.award);
      var count := UpdateRow(k, available, freeze, award);
      if count == 0 {
        if k !in wallets {
          wallets := wallets[k := EMPTY_WALLET];
        } else {
          return false;
        }
        count := UpdateRow(k, available, freeze, award);
      }
      if count != 1 {
        wallets := atStart;
        return false;
      }
      ghost var c := Call(k, d);
      assert wallets == atStart[k := Added(WalletOf(old(Books()), k), d)];
      if d.available != 0.0 {
        bills := bills + [Bill(k, Available, available)];
      }
      if d.freeze != 0.0 {
        bills := bills + [Bill(k, Freeze, freeze)];
      }
      if d.award != 0.0 {
        bills := bills + [Bill(k, Award, award)];
      }
      assert bills == old(bills) + BillFor(c, Available) + BillFor(c, Freeze) + BillFor(c, Award);
      return true;
    }
  }
}
