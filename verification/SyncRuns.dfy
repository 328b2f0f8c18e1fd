/** What a run of deposit synchronisation guarantees, wherever it fails, and how far clean runs get. */
module SyncRuns {
  import opened Deposits
  import opened Ledgers
  import opened Payments
  import opened Rounding
  import opened Sums

  /** What has moved money: a recorded deposit, or a ledger call of another service. */
  datatype Entry = Deposit(payment: Payment) | Other(call: Call)

  function CallOf(e: Entry): Call
  {
    match e
    case Deposit(p) => CreditOf(p)
    case Other(call) => call
  }

  function CallsOf(history: seq<Entry>): seq<Call>
  {
    seq(|history|, i requires 0 <= i < |history| => CallOf(history[i]))
  }

  /** The deposits of a history, without the calls between them. */
  function DepositsOf(history: seq<Entry>): seq<Payment>
  {
    if history == [] then [] else
      var last := history[|history| - 1];
      DepositsOf(history[..|history| - 1]) + if last.Deposit? then [last.payment] else []
  }

  function PaymentsOf(received: seq<Received>): seq<Payment>
  {
    seq(|received|, i requires 0 <= i < |received| => received[i].payment)
  }

  /** Each (coin, txid) is on record at most once, and the books are the starting books with the calls of
      the history made, in order, whose deposits are exactly the records: one credit for each. */
  ghost predicate CreditedOnce(received: seq<Received>, book: Book, start: Book, history: seq<Entry>)
  {
    && Balanced(book)
    && (forall i, j :: 0 <= i < j < |received| ==>
          received[i].txid != received[j].txid || received[i].coin != received[j].coin)
    && (forall i :: 0 <= i < |received| ==> received[i].coin == received[i].payment.coin)
    && book == PostEach(start, CallsOf(history))
    && DepositsOf(history) == PaymentsOf(received)
  }

  /** The history after records were added. */
  function Grown(history: seq<Entry>, received: seq<Received>, after: seq<Received>): seq<Entry>
    requires |received| <= |after|
  {
    history
    + seq(|after| - |received|, i requires 0 <= i < |after| - |received| => Deposit(after[|received| + i].payment))
  }

  lemma GrownTwice(history: seq<Entry>, a: seq<Received>, b: seq<Received>, c: seq<Received>)
    requires a <= b <= c
    ensures Grown(Grown(history, a, b), b, c) == Grown(history, a, c)
  {
  }

  lemma OneMoreCall(book: Book, start: Book, history: seq<Entry>, e: Entry)
    requires book == PostEach(start, CallsOf(history)) && Post(book, CallOf(e)).Some?
    ensures Post(book, CallOf(e)).value == PostEach(start, CallsOf(history + [e]))
    ensures DepositsOf(history + [e]) == DepositsOf(history) + if e.Deposit? then [e.payment] else []
  {
    assert CallsOf(history + [e]) == CallsOf(history) + [CallOf(e)];
    assert CallsOf(history + [e])[..|history|] == CallsOf(history);
    assert (history + [e])[..|history|] == history;
  }

  /** A call of another service changes no record. */
  lemma OtherKeepsCredited(received: seq<Received>, book: Book, start: Book, history: seq<Entry>, call: Call)
    requires CreditedOnce(received, book, start, history) && Post(book, call).Some?
    ensures CreditedOnce(received, Post(book, call).value, start, history + [Other(call)])
  {
    OneMoreCall(book, start, history, Other(call));
    PostKeepsBalance(book, call);
  }

  /** From `s` to `after` records were added, and exactly these were credited. */
  ghost predicate Extends(s: SyncState, after: SyncState, start: Book, history: seq<Entry>)
  {
    && s.received <= after.received
    && CreditedOnce(after.received, after.book, start, Grown(history, s.received, after.received))
  }

  lemma ExtendsNothing(s: SyncState, start: Book, history: seq<Entry>)
    requires CreditedOnce(s.received, s.book, start, history)
    ensures Extends(s, s, start, history)
  {
    assert Grown(history, s.received, s.received) == history;
  }

  lemma ExtendsTwice(s: SyncState, mid: SyncState, after: SyncState, start: Book, history: seq<Entry>)
    requires Extends(s, mid, start, history)
    requires Extends(mid, after, start, Grown(history, s.received, mid.received))
    ensures Extends(s, after, start, history)
  {
    GrownTwice(history, s.received, mid.received, after.received);
  }

  /** Every record added from `s` to `after` is the deposit its transaction makes. */
  ghost predicate AddsDeposits(u: Setup, s: SyncState, after: SyncState)
  {
    forall i :: |s.received| <= i < |after.received| ==>
      u.DepositIn(after.received[i].txid) == Some(after.received[i].payment)
  }

  /** Adding a deposit credits it unless it is on record. */
  lemma AddCredits(s: SyncState, p: Payment, txid: string, start: Book, history: seq<Entry>)
    requires CreditedOnce(s.received, s.book, start, history) && 0 <= HalfUp(p.amount - p.fee)
    ensures Extends(s, Add(s, p, txid), start, history) && Known(Add(s, p, txid).received, p.coin, txid)
    ensures Add(s, p, txid).received
         == s.received + if Known(s.received, p.coin, txid) then [] else [Received(p.coin, txid, p)]
  {
    Creditable(s.book, p);
    AddedIsKnown(s, p, txid);
    if Known(s.received, p.coin, txid) {
      ExtendsNothing(s, start, history);
    } else {
      var after := Add(s, p, txid);
      PostKeepsBalance(s.book, CreditOf(p));
      OneMoreCall(s.book, start, history, Deposit(p));
      assert Grown(history, s.received, after.received) == history + [Deposit(p)];
      assert PaymentsOf(after.received) == PaymentsOf(s.received) + [p];
    }
  }

  ghost predicate OnRecord(u: Setup, s: SyncState, txid: string)
  {
    var p := u.DepositIn(txid);
    p.Some? ==> Known(s.received, p.value.coin, txid)
  }

  /** Every deposit in the blocks after `from` up to `to` is on record. */
  ghost predicate CoversBlocks(u: Setup, s: SyncState, from: int, to: int)
  {
    forall h, i :: from < h <= to && 0 <= h < |u.blocks| && 0 <= i < |u.blocks[h]| ==> OnRecord(u, s, u.blocks[h][i])
  }

  lemma RecordSound(u: Setup, s: SyncState, txid: string, start: Book, history: seq<Entry>)
    requires u.Sane() && CreditedOnce(s.received, s.book, start, history)
    ensures var after := Record(u, s, txid);
            Extends(s, after, start, history) && AddsDeposits(u, s, after) && OnRecord(u, after, txid)
  {
    var p := u.DepositIn(txid);
    if p.Some? {
      DepositsCredit(u.service, u.addresses, u.txs[txid]);
      AddCredits(s, p.value, txid, start, history);
    } else {
      ExtendsNothing(s, start, history);
    }
  }

  lemma {:induction false} RecordAllSound(u: Setup, s: SyncState, txids: seq<string>, start: Book, history: seq<Entry>)
    requires u.Sane() && CreditedOnce(s.received, s.book, start, history)
    ensures var after := RecordAll(u, s, txids);
            && Extends(s, after, start, history) && AddsDeposits(u, s, after)
            && after.cursor == s.cursor && AllOnRecord(u, after, txids)
  {
    if txids == [] {
      ExtendsNothing(s, start, history);
    } else {
      var n := |txids| - 1;
      var before, after := RecordAll(u, s, txids[..n]), RecordAll(u, s, txids);
      RecordAllSound(u, s, txids[..n], start, history);
      RecordSound(u, before, txids[n], start, Grown(history, s.received, before.received));
      ExtendsTwice(s, before, after, start, history);
      AddsTwice(u, s, before, after);
      OneMoreOnRecord(u, before, after, txids);
    }
  }

  ghost predicate AllOnRecord(u: Setup, s: SyncState, txids: seq<string>)
  {
    forall i :: 0 <= i < |txids| ==> OnRecord(u, s, txids[i])
  }

  lemma OneMoreOnRecord(u: Setup, before: SyncState, after: SyncState, txids: seq<string>)
    requires txids != [] && AllOnRecord(u, before, txids[..|txids| - 1])
    requires before.received <= after.received && OnRecord(u, after, txids[|txids| - 1])
    ensures AllOnRecord(u, after, txids)
  {
    var n := |txids| - 1;
    forall i | 0 <= i < n ensures OnRecord(u, after, txids[i]) {
      assert OnRecord(u, before, txids[..n][i]);
      StaysOnRecord(u, before, after, txids[i]);
    }
  }

  lemma AddsTwice(u: Setup, s: SyncState, mid: SyncState, after: SyncState)
    requires s.received <= mid.received <= after.received
    requires AddsDeposits(u, s, mid) && AddsDeposits(u, mid, after)
    ensures AddsDeposits(u, s, after)
  {
    forall i | |s.received| <= i < |after.received|
      ensures u.DepositIn(after.received[i].txid) == Some(after.received[i].payment)
    {
      if i < |mid.received| {
        assert after.received[i] == mid.received[i];
      }
    }
  }

  lemma StaysOnRecord(u: Setup, s: SyncState, after: SyncState, txid: string)
    requires s.received <= after.received && OnRecord(u, s, txid)
    ensures OnRecord(u, after, txid)
  {
    var p := u.DepositIn(txid);
    if p.Some? {
      var i :| 0 <= i < |s.received| && s.received[i].coin == p.value.coin && s.received[i].txid == txid;
      assert after.received[i] == s.received[i];
    }
  }

  /** The processed txids contain every transaction of the finished blocks. */
  lemma {:induction false} HoldsBlocks(u: Setup, from: int, count: nat, h: int, i: nat)
    requires 0 <= from && from + count <= |u.blocks| && from <= h < from + count && i < |u.blocks[h]|
    ensures u.blocks[h][i] in TxidsOf(u.blocks, from, count)
    decreases count
  {
    if h < from + count - 1 {
      HoldsBlocks(u, from, count - 1, h, i);
    }
  }

  /** ... and nothing but transactions of the blocks that were read. */
  lemma {:induction false} OnlyBlocks(u: Setup, from: int, count: nat, txid: string)
    requires 0 <= from && from + count <= |u.blocks| && txid in TxidsOf(u.blocks, from, count)
    ensures exists h :: from <= h < from + count && txid in u.blocks[h]
    decreases count
  {
    if count > 0 && txid in TxidsOf(u.blocks, from, count - 1) {
      OnlyBlocks(u, from, count - 1, txid);
    }
  }

  /** One run keeps what was true and, as far as it saves its cursor, extends the covered blocks. */
  lemma OneRun(u: Setup, s: SyncState, run: Run, start: Book, history: seq<Entry>, origin: int)
    requires u.Sane() && CreditedOnce(s.received, s.book, start, history) && Possible(u, s, run)
    requires CoversBlocks(u, s, origin, LastSynced(s, run.head))
    ensures var after := After(u, s, run);
            && Extends(s, after, start, history) && AddsDeposits(u, s, after)
            && CoversBlocks(u, after, origin, LastSynced(s, run.head) + run.count)
            && after.cursor == if run.saved then Some(LastSynced(s, run.head) + run.count) else s.cursor
  {
    var last := LastSynced(s, run.head);
    var txids := TxidsFrom(u, last + 1, run.count, run.partial);
    RecordAllSound(u, s, txids, start, history);
    var after := After(u, s, run);
    RunCovers(u, s, after, run, origin);
  }

  lemma RunCovers(u: Setup, s: SyncState, after: SyncState, run: Run, origin: int)
    requires Possible(u, s, run) && s.received <= after.received
    requires CoversBlocks(u, s, origin, LastSynced(s, run.head))
    requires AllOnRecord(u, after, TxidsFrom(u, LastSynced(s, run.head) + 1, run.count, run.partial))
    ensures CoversBlocks(u, after, origin, LastSynced(s, run.head) + run.count)
  {
    var last := LastSynced(s, run.head);
    var txids := TxidsFrom(u, last + 1, run.count, run.partial);
    forall h, i | origin < h <= last + run.count && 0 <= h < |u.blocks| && 0 <= i < |u.blocks[h]|
      ensures OnRecord(u, after, u.blocks[h][i])
    {
      if h <= last {
        StaysOnRecord(u, s, after, u.blocks[h][i]);
      } else {
        InTxids(u, last + 1, run.count, run.partial, h, i);
        var j :| 0 <= j < |txids| && txids[j] == u.blocks[h][i];
      }
    }
  }

  lemma InTxids(u: Setup, from: int, count: nat, partial: nat, h: int, i: nat)
    requires 0 <= from && from <= h < from + count && from + count <= |u.blocks| && i < |u.blocks[h]|
    ensures u.blocks[h][i] in TxidsFrom(u, from, count, partial)
  {
    HoldsBlocks(u, from, count, h, i);
  }

  /** Without a saved cursor a run begins 2000 blocks before the head, or at the first block. */
  lemma FirstRunBegins(u: Setup, s: SyncState, run: Run, r: Received)
    requires s.cursor.None? && Possible(u, s, run) && r in After(u, s, run).received && r !in s.received
    ensures exists h :: 0 < h < |u.blocks| && run.head - 2000 < h < run.head && r.txid in u.blocks[h]
  {
    OnlyConfirmed(u, s, run, r);
  }

  lemma FirstCursor(u: Setup, s: SyncState, run: Run)
    requires s.cursor.None? && run.saved
    ensures After(u, s, run).cursor == Some((if 2000 < run.head then run.head - 2000 else 0) + run.count)
  {
  }

  /** A block that is covered stays covered: for every block between the origin and a cursor that was
      ever saved, a later cursor is not smaller. */
  lemma CursorNeverFalls(u: Setup, s: SyncState, run: Run)
    requires Possible(u, s, run)
    ensures s.cursor.Some? ==> After(u, s, run).cursor.Some? && s.cursor.value <= After(u, s, run).cursor.value
    ensures run.saved ==> After(u, s, run).cursor == Some(LastSynced(s, run.head) + run.count) && run.count <= 1000
    ensures !run.saved ==> After(u, s, run).cursor == s.cursor
  {
    CursorUntouched(u, s, TxidsFrom(u, LastSynced(s, run.head) + 1, run.count, run.partial));
  }

  lemma {:induction false} CursorUntouched(u: Setup, s: SyncState, txids: seq<string>)
    ensures RecordAll(u, s, txids).cursor == s.cursor
    ensures forall r :: r in RecordAll(u, s, txids).received ==> r in s.received || r.txid in txids
  {
    if txids != [] {
      CursorUntouched(u, s, txids[..|txids| - 1]);
    }
  }

  /** A run credits only transactions of blocks below the point it was allowed to read: for ETH these
      are more than twelve blocks below the head that the run was told. */
  lemma OnlyConfirmed(u: Setup, s: SyncState, run: Run, r: Received)
    requires Possible(u, s, run) && r in After(u, s, run).received && r !in s.received
    ensures exists h :: LastSynced(s, run.head) < h < u.ToBlock(run.head) && 0 <= h < |u.blocks|
                        && r.txid in u.blocks[h]
    ensures u.service.Eth? ==> exists h :: 0 <= h < |u.blocks| && r.txid in u.blocks[h] && run.head - h > 12
  {
    var from := LastSynced(s, run.head) + 1;
    CursorUntouched(u, s, TxidsFrom(u, from, run.count, run.partial));
    if from + run.count <= |u.blocks| && r.txid in TxidsOf(u.blocks, from, run.count) {
      OnlyBlocks(u, from, run.count, r.txid);
      var h :| from <= h < from + run.count && r.txid in u.blocks[h];
      assert u.service.Eth? ==> run.head - h > 12;
    } else {
      var h := from + run.count;
      assert r.txid in u.blocks[h][..run.partial];
      assert u.service.Eth? ==> run.head - h > 12;
    }
  }

  /** Runs without failures at a fixed head: the cursor gains up to 1000 blocks a run and stops just
      below the cut-off, so it is there once the runs have covered the gap. */
  function CleanRuns(u: Setup, s: SyncState, head: nat, k: nat): SyncState
  {
    if k == 0 then s else
      var before := CleanRuns(u, s, head, k - 1);
      After(u, before, CleanRun(u, before, head))
  }

  /** Where a clean run leaves a cursor that starts at `c`. */
  function NextStop(c: int, end: int): int
  {
    if c >= end then c else if c + 1000 < end then c + 1000 else end
  }

  lemma CleanRunStops(u: Setup, s: SyncState, head: nat)
    requires s.cursor.Some?
    ensures After(u, s, CleanRun(u, s, head)).cursor == Some(NextStop(s.cursor.value, u.ToBlock(head) - 1))
  {
    var run := CleanRun(u, s, head);
    CursorUntouched(u, s, TxidsFrom(u, LastSynced(s, run.head) + 1, run.count, run.partial));
  }

  lemma {:induction false} CatchesUp(u: Setup, s: SyncState, head: nat, k: nat)
    requires s.cursor.Some?
    ensures var c, end := s.cursor.value, if u.service.Eth? then head - 13 else head - 1;
            CleanRuns(u, s, head, k).cursor
            == Some(if c >= end then c else if c + 1000 * k < end then c + 1000 * k else end)
  {
    if k > 0 {
      CatchesUp(u, s, head, k - 1);
      CleanRunStops(u, CleanRuns(u, s, head, k - 1), head);
    }
  }
}
