/** The deposit synchronisation of BitcoinService, UsdtService and EthService: blocks are read from a
    persisted cursor on, and every deposit found is recorded and credited unless its transaction is
    already on record. A run may be cut short anywhere, by an exception or by a crash. */
module Deposits {
  import opened Ledgers
  import opened Payments
  import opened Rounding
  import opened Sums
  import opened Text

  /** A row of t_received_coin. */
  datatype Received = Received(coin: string, txid: string, payment: Payment)

  datatype SyncState = SyncState(cursor: Option<int>, received: seq<Received>, book: Book)

  /** What a service reads: its coins, the bound addresses, and the chain, which does not change. */
  datatype Setup = Setup(service: Service, addresses: Addresses, blocks: seq<seq<string>>, txs: map<string, Tx>) {

    ghost predicate Sane()
    {
      && (forall h, i :: 0 <= h < |blocks| && 0 <= i < |blocks[h]| ==> blocks[h][i] in txs)
      && (forall txid :: txid in txs ==> SaneTx(txs[txid]))
    }

    function DepositIn(txid: string): Option<Payment>
    {
      if txid in txs then PaymentOf(service, addresses, txs[txid]) else None
    }

    /** One block past the last block to read: ETH waits for twelve confirmations. */
    function ToBlock(head: int): int
    {
      if service.Eth? then head - 12 else head
    }

    /** BTC and USDT return early, without saving the cursor, when there is nothing to read. */
    predicate StopsEarly()
    {
      !service.Eth?
    }
  }

  predicate Known(received: seq<Received>, coin: string, txid: string)
  {
    exists i :: 0 <= i < |received| && received[i].coin == coin && received[i].txid == txid
  }

  function CreditOf(p: Payment): Call
  {
    Call(Key(p.user, p.coin), Delta(p.amount - p.fee, 0.0, 0.0))
  }

  /** A payment that is not on record is recorded and credited. */
  function Add(s: SyncState, p: Payment, txid: string): SyncState
  {
    if Known(s.received, p.coin, txid) then s else
      match Post(s.book, CreditOf(p))
      case None => s
      case Some(book) => s.(received := s.received + [Received(p.coin, txid, p)], book := book)
  }

  function Record(u: Setup, s: SyncState, txid: string): SyncState
  {
    match u.DepositIn(txid)
    case None => s
    case Some(p) => Add(s, p, txid)
  }

  /** In balanced books a deposit can always be credited. */
  lemma Creditable(book: Book, p: Payment)
    requires Balanced(book) && 0 <= HalfUp(p.amount - p.fee)
    ensures Post(book, CreditOf(p)).Some?
  {
    HalfUpWhole(0);
  }

  lemma AddedIsKnown(s: SyncState, p: Payment, txid: string)
    requires Balanced(s.book) && 0 <= HalfUp(p.amount - p.fee)
    ensures Known(Add(s, p, txid).received, p.coin, txid)
    ensures Add(Add(s, p, txid), p, txid) == Add(s, p, txid)
  {
    Creditable(s.book, p);
    if !Known(s.received, p.coin, txid) {
      assert Add(s, p, txid).received[|s.received|] == Received(p.coin, txid, p);
    }
  }

  function RecordAll(u: Setup, s: SyncState, txids: seq<string>): SyncState
  {
    if txids == [] then s else Record(u, RecordAll(u, s, txids[..|txids| - 1]), txids[|txids| - 1])
  }

  lemma RecordOneMore(u: Setup, s: SyncState, txids: seq<string>, txid: string)
    ensures RecordAll(u, s, txids + [txid]) == Record(u, RecordAll(u, s, txids), txid)
  {
    assert (txids + [txid])[..|txids|] == txids;
  }

  lemma {:induction false} RecordInTwo(u: Setup, s: SyncState, a: seq<string>, b: seq<string>)
    ensures RecordAll(u, s, a + b) == RecordAll(u, RecordAll(u, s, a), b)
  {
    if b == [] {
      assert a + b == a;
    } else {
      assert (a + b)[..|a + b| - 1] == a + b[..|b| - 1];
      RecordInTwo(u, s, a, b[..|b| - 1]);
    }
  }

  /** The txids of `count` blocks from `from` on. */
  function TxidsOf(blocks: seq<seq<string>>, from: int, count: nat): seq<string>
    requires 0 <= from && from + count <= |blocks|
  {
    if count == 0 then [] else TxidsOf(blocks, from, count - 1) + blocks[from + count - 1]
  }

  /** One run: the head it was told, how many blocks it finished, how many transactions of the next
      block it processed before it failed, and whether it lived to save the cursor. */
  datatype Run = Run(head: nat, count: nat, partial: nat, saved: bool)

  /** The last synchronised block, or, when none was ever saved, 2000 blocks before the head. */
  function LastSynced(s: SyncState, head: nat): int
  {
    match s.cursor
    case Some(c) => c
    case None => if head > 2000 then head - 2000 else 0
  }

  /** The shapes a run can take. */
  predicate Possible(u: Setup, s: SyncState, run: Run)
  {
    var from, to := LastSynced(s, run.head) + 1, u.ToBlock(run.head);
    && 0 < from && run.head <= |u.blocks|
    && Progress(u, from, to, run.count, run.partial)
    && (from >= to && u.StopsEarly() ==> !run.saved)
  }

  /** What the loop may have done: whole blocks from `from` on, and part of the next. */
  predicate Progress(u: Setup, from: int, toBlock: int, count: nat, partial: nat)
  {
    count <= 1000
    && if from >= toBlock then count == 0 && partial == 0
       else from + count <= toBlock
            && (partial > 0 ==>
                  0 <= from + count < |u.blocks| && from + count < toBlock && partial <= |u.blocks[from + count]|)
  }

  /** The txids of `count` whole blocks and of the first `partial` transactions of the next. */
  function TxidsFrom(u: Setup, from: int, count: nat, partial: nat): seq<string>
  {
    if from < 0 || from + count > |u.blocks| then [] else
      TxidsOf(u.blocks, from, count)
      + if partial > 0 && from + count < |u.blocks| && partial <= |u.blocks[from + count]| then
          u.blocks[from + count][..partial]
        else []
  }

  function After(u: Setup, s: SyncState, run: Run): SyncState
  {
    var last := LastSynced(s, run.head);
    var recorded := RecordAll(u, s, TxidsFrom(u, last + 1, run.count, run.partial));
    if run.saved then recorded.(cursor := Some(last + run.count)) else recorded
  }

  // ---- the services

  /** Where a run fails: never, or after so many steps, by an exception or by a crash. */
  datatype Fault = NoFault | FaultAfter(steps: nat, crash: bool)

  class DepositSync {
    const u: Setup
    const ledger: Ledger
    var cursor: Option<int>
    var received: seq<Received>

    constructor (u: Setup, ledger: Ledger, cursor: Option<int>)
      ensures this.u == u && this.ledger == ledger && this.cursor == cursor && received == []
    {
      this.u, this.ledger, this.cursor, received := u, ledger, cursor, [];
    }

    ghost function State(): SyncState
      reads this, ledger
    {
      SyncState(cursor, received, ledger.Books())
    }

    ghost predicate Valid()
      reads this, ledger
    {
      u.Sane() && Balanced(ledger.Books())
    }

    method IsTransactionExist(coin: string, txid: string) returns (known: bool)
      ensures known == Known(received, coin, txid)
    {
      for i := 0 to |received|
        invariant forall j :: 0 <= j < i ==> received[j].coin != coin || received[j].txid != txid
      {
        if received[i].coin == coin && received[i].txid == txid {
          return true;
        }
      }
      return false;
    }

    /** ReceivedCoinService.addTransaction: the record and the credit in one transaction. */
    method AddTransaction(p: Payment, txid: string)
      requires Valid() && 0 <= HalfUp(p.amount - p.fee)
      modifies this`received, ledger
      ensures Valid()
      ensures received == old(received) + [Received(p.coin, txid, p)]
      ensures Post(old(ledger.Books()), CreditOf(p)) == Some(ledger.Books())
    {
      Creditable(ledger.Books(), p);
      received := received + [Received(p.coin, txid, p)];
      var ok := ledger.ChangeUserCoin(Key(p.user, p.coin), Delta(p.amount - p.fee, 0.0, 0.0));
      PostKeepsBalance(old(ledger.Books()), CreditOf(p));
    }

    /** What all services do with a deposit: look the transaction up, and add it when it is new. */
    method AddIfNew(p: Payment, txid: string)
      requires Valid() && 0 <= HalfUp(p.amount - p.fee)
      modifies this`received, ledger
      ensures Valid() && State() == Add(old(State()), p, txid)
    {
      var known := IsTransactionExist(p.coin, txid);
      if !known {
        AddTransaction(p, txid);
      }
    }

    /** One round of the detail loop of BitcoinService.syncTransaction. */
    method SyncDetail(coin: Coin, d: Detail, txid: string)
      requires Valid() && 0.0 <= d.amount
      modifies this`received, ledger
      ensures Valid()
      ensures var p := MatchDetail(coin, u.addresses, d);
              State() == if p.Some? then Add(old(State()), p.value, txid) else old(State())
    {
      if !d.complete || d.category != "receive" || d.account == "" || Address(coin.name, d.address) !in u.addresses {
        return;
      }
      CreditNotNegative(coin, u.addresses[Address(coin.name, d.address)], d.address, d.amount);
      AddIfNew(Pay(coin, u.addresses[Address(coin.name, d.address)], d.address, d.amount), txid);
    }

    /** BitcoinService.syncTransaction: every matching detail is tried, and the record that the first
        one leaves keeps the others out. */
    method SyncBtcTransaction(txid: string)
      requires Valid() && u.service.Btc? && txid in u.txs && u.txs[txid].BtcTx?
      modifies this`received, ledger
      ensures Valid() && State() == Record(u, old(State()), txid)
    {
      var tx := u.txs[txid];
      if !tx.inWallet || !tx.complete {
        return;
      }
      var coin := u.service.coin;
      var details := tx.details;
      assert SaneTx(tx);
      for i := 0 to |details|
        invariant Valid()
        invariant var p := FirstMatch(coin, u.addresses, details, i);
                  State() == if p.Some? then Add(old(State()), p.value, txid) else old(State())
      {
        var p := FirstMatch(coin, u.addresses, details, i);
        if p.Some? {
          FirstMatchCredit(coin, u.addresses, details, i);
          AddedIsKnown(old(State()), p.value, txid);
          MatchCoin(coin, u.addresses, details, i);
        }
        SyncDetail(coin, details[i], txid);
      }
    }

    /** UsdtService.syncTransaction. */
    method SyncOmniTransaction(txid: string)
      requires Valid() && u.service.Omni? && txid in u.txs && u.txs[txid].OmniTx?
      modifies this`received, ledger
      ensures Valid() && State() == Record(u, old(State()), txid)
    {
      var tx, coin := u.txs[txid], u.service.coin;
      if !tx.complete || tx.kind != "Simple Send" || !tx.valid || tx.propertyId != "31" {
        return;
      }
      if Address(coin.name, tx.to) !in u.addresses || Address(coin.name, tx.from) in u.addresses {
        return;
      }
      DepositsCredit(u.service, u.addresses, tx);
      AddIfNew(Pay(coin, u.addresses[Address(coin.name, tx.to)], tx.to, tx.amount), txid);
    }

    /** EthService.syncTransaction and syncTokenTransaction. */
    method SyncEthTransaction(txid: string)
      requires Valid() && u.service.Eth? && txid in u.txs && u.txs[txid].EthTx?
      modifies this`received, ledger
      ensures Valid() && State() == Record(u, old(State()), txid)
    {
      var tx := u.txs[txid];
      if tx.value == 0 && tx.input != "0x" {
        if tx.recipient.None? || ToLower(tx.recipient.value) !in u.service.tokens || !IsTransfer(tx.input) {
          return;
        }
        var coin := u.service.tokens[ToLower(tx.recipient.value)];
        if tx.receipt.None? || tx.receipt.value.gasUsed >= tx.gas || tx.receipt.value.createdContract {
          return;
        }
        var logs := tx.receipt.value.logs;
        var j := 0;
        while j < |logs|
          invariant 0 <= j <= |logs|
          invariant State() == old(State()) && Valid()
          invariant LogPayment(coin, u.addresses, logs) == LogPayment(coin, u.addresses, logs[j..])
        {
          var log := logs[j];
          if log.topics != 3 || !log.hasData {
            j := j + 1;
            continue;
          }
          if Address(coin.name, log.to) in u.addresses {
            DepositsCredit(u.service, u.addresses, tx);
            AddIfNew(Pay(coin, u.addresses[Address(coin.name, log.to)], log.to,
                ToEight(log.value, coin.decimals)), txid);
          }
          return;
        }
      } else {
        if u.service.ethCoin.None? || tx.recipient.None? {
          return;
        }
        var coin := u.service.ethCoin.value;
        var to := Address(coin.name, tx.recipient.value);
        if to !in u.addresses || Address(coin.name, tx.sender) in u.addresses {
          return;
        }
        DepositsCredit(u.service, u.addresses, tx);
        AddIfNew(Pay(coin, u.addresses[to], tx.recipient.value, ToEight(tx.value, 18)), txid);
      }
    }

    method SyncTransaction(txid: string)
      requires Valid() && txid in u.txs
      modifies this`received, ledger
      ensures Valid() && State() == Record(u, old(State()), txid)
    {
      var tx := u.txs[txid];
      if u.service.Btc? && tx.BtcTx? {
        SyncBtcTransaction(txid);
      } else if u.service.Omni? && tx.OmniTx? {
        SyncOmniTransaction(txid);
      } else if u.service.Eth? && tx.EthTx? {
        SyncEthTransaction(txid);
      }
    }

    /** syncBlock: the listing and each transaction are steps that may fail. */
    method SyncBlock(height: int, fault: Fault, used: nat) returns (ok: bool, nowUsed: nat, ghost done: nat)
      requires Valid() && 0 <= height < |u.blocks|
      modifies this`received, ledger
      ensures Valid() && done <= |u.blocks[height]|
      ensures State() == RecordAll(u, old(State()), u.blocks[height][..done])
      ensures ok ==> done == |u.blocks[height]|
      ensures fault.NoFault? ==> ok
    {
      nowUsed, done := used, 0;
      if fault.FaultAfter? && nowUsed == fault.steps {
        return false, nowUsed, 0;
      }
      nowUsed := nowUsed + 1;
      var txids := u.blocks[height];
      for i := 0 to |txids|
        invariant Valid() && done == i
        invariant State() == RecordAll(u, old(State()), txids[..i])
      {
        if fault.FaultAfter? && nowUsed == fault.steps {
          return false, nowUsed, done;
        }
        SyncTransaction(txids[i]);
        RecordOneMore(u, old(State()), txids[..i], txids[i]);
        assert txids[..i] + [txids[i]] == txids[..i + 1];
        nowUsed, done := nowUsed + 1, i + 1;
      }
      return true, nowUsed, done;
    }

    /** The loop of syncNewTransactions. */
    method SyncBlocks(from: int, toBlock: int, fault: Fault)
      returns (count: nat, failed: bool, used: nat, ghost partial: nat)
      requires Valid() && 0 < from && toBlock <= |u.blocks|
      modifies this`received, ledger
      ensures Valid() && Progress(u, from, toBlock, count, partial)
      ensures Reached(u, old(State()), State(), from, count, partial)
      ensures !failed ==> partial == 0 && (from < toBlock ==> from + count == toBlock || count == 1000)
      ensures failed ==> from < toBlock
      ensures fault.NoFault? ==> !failed
    {
      var curBlock := from;
      count, failed, used, partial := 0, false, 0, 0;
      while curBlock < toBlock
        invariant Valid() && count < 1000 && curBlock == from + count
        invariant count > 0 ==> curBlock <= toBlock
        invariant Reached(u, old(State()), State(), from, count, 0)
      {
        ghost var before := State();
        var ok;
        ok, used, partial := SyncBlock(curBlock, fault, used);
        ReachedMore(u, old(State()), before, State(), from, count, partial);
        if !ok {
          failed := true;
          return;
        }
        partial := 0;
        curBlock, count := curBlock + 1, count + 1;
        if count >= 1000 {
          return;
        }
      }
    }

    /** syncNewTransactions: at most 1000 blocks from the cursor towards the head, stopping at the first
        exception; the cursor is saved afterwards, unless the process is gone by then. */
    method SyncNewTransactions(head: nat, fault: Fault) returns (count: nat, ghost run: Run)
      requires Valid() && head <= |u.blocks| && (cursor.Some? ==> 0 <= cursor.value)
      modifies this, ledger
      ensures Valid()
      ensures Possible(u, old(State()), run) && State() == After(u, old(State()), run)
      ensures run.head == head && run.count == count
      ensures fault.NoFault? ==> run == CleanRun(u, old(State()), head)
    {
      var lastSyncBlock := if cursor.Some? then cursor.value else if head > 2000 then head - 2000 else 0;
      var curBlock := lastSyncBlock + 1;
      var toBlock := if u.service.Eth? then head - 12 else head;
      if curBlock >= toBlock && !u.service.Eth? {
        return 0, Run(head, 0, 0, false);
      }
      var failed, used;
      ghost var partial;
      count, failed, used, partial := SyncBlocks(curBlock, toBlock, fault);
      run := Run(head, count, partial, true);
      RunOfLoop(u, old(State()), State(), head, curBlock, toBlock, count, partial);
      if fault.FaultAfter? && fault.crash && (failed || used == fault.steps) {
        run := run.(saved := false);
        return;
      }
      cursor := Some(curBlock + count - 1);
    }
  }

  /** `s` is what processing `count` blocks and part of the next has made of `start`. */
  ghost predicate Reached(u: Setup, start: SyncState, s: SyncState, from: int, count: nat, partial: nat)
  {
    s == RecordAll(u, start, TxidsFrom(u, from, count, partial))
  }

  /** Processing `done` more transactions after `count` whole blocks. */
  lemma ReachedMore(u: Setup, start: SyncState, s: SyncState, next: SyncState, from: int, count: nat, done: nat)
    requires 0 <= from && from + count < |u.blocks| && done <= |u.blocks[from + count]|
    requires Reached(u, start, s, from, count, 0) && next == RecordAll(u, s, u.blocks[from + count][..done])
    ensures Reached(u, start, next, from, count, done)
    ensures done == |u.blocks[from + count]| ==> Reached(u, start, next, from, count + 1, 0)
  {
    var block := u.blocks[from + count];
    RecordInTwo(u, start, TxidsFrom(u, from, count, 0), block[..done]);
    assert block[..|block|] == block;
    assert TxidsFrom(u, from, count, 0) == TxidsOf(u.blocks, from, count);
    assert TxidsFrom(u, from, count, 0) + block[..done] == TxidsFrom(u, from, count, done);
    if done == |block| {
      assert TxidsFrom(u, from, count + 1, 0) == TxidsOf(u.blocks, from, count) + block[..done];
    }
  }

  /** The run without failures. */
  function CleanRun(u: Setup, s: SyncState, head: nat): Run
  {
    var from, to := LastSynced(s, head) + 1, u.ToBlock(head);
    if from >= to then Run(head, 0, 0, !u.StopsEarly())
    else Run(head, if to - from > 1000 then 1000 else to - from, 0, true)
  }

  /** What the loop reports about a run makes one of the shapes a run can take, and the clean one if
      nothing failed. */
  lemma RunOfLoop(u: Setup, start: SyncState, s: SyncState, head: nat, from: int, toBlock: int, count: nat,
                  partial: nat)
    requires head <= |u.blocks| && 0 < from == LastSynced(start, head) + 1 && toBlock == u.ToBlock(head)
    requires Progress(u, from, toBlock, count, partial) && (from >= toBlock ==> !u.StopsEarly())
    requires Reached(u, start, s, from, count, partial)
    ensures forall saved :: Possible(u, start, Run(head, count, partial, saved))
    ensures After(u, start, Run(head, count, partial, false)) == s
    ensures After(u, start, Run(head, count, partial, true)) == s.(cursor := Some(from + count - 1))
    ensures partial == 0 && (from < toBlock ==> from + count == toBlock || count == 1000)
            ==> Run(head, count, partial, true) == CleanRun(u, start, head)
  {
  }

  /** Every match is about the coin that is synchronised. */
  lemma {:induction false} MatchCoin(coin: Coin, addresses: Addresses, details: seq<Detail>, n: nat)
    requires n <= |details|
    ensures var p := FirstMatch(coin, addresses, details, n); p.Some? ==> p.value.coin == coin.name
  {
    if n > 0 {
      MatchCoin(coin, addresses, details, n - 1);
    }
  }
}
