/** What the recording of a deposit does to the owner's wallet, in terms of what the chain reports: which
    transactions are recorded at all, at how many units, and what fee is kept. */
module DepositAmounts {
  import opened Deposits
  import opened EosDeposits
  import opened Ledgers
  import opened Payments
  import opened Rounding
  import opened Sums
  import opened Text

  // ---- from chain units to units of 1e-8

  lemma {:induction false} PowersOfTen(a: nat, b: nat)
    ensures Pow10(0) == 1 && Pow10(1) == 10 && Pow10(a + b) == Pow10(a) * Pow10(b)
  {
    if b > 0 {
      PowersOfTen(a, b - 1);
      assert Pow10(a + b) == 10 * Pow10(a + b - 1) == 10 * (Pow10(a) * Pow10(b - 1));
    }
  }

  lemma WeiPerEther()
    ensures Pow10(18) == 1_000_000_000_000_000_000
  {
    assert Pow10(6) == 1_000_000;
    PowersOfTen(6, 6);
    PowersOfTen(12, 6);
  }

  /** `eight` units of 1e-8 coin are nearest to a chain value of which `power` make a coin. */
  predicate Nearest(eight: int, value: int, power: int)
  {
    var off := eight * power - value * 100_000_000;
    -power <= 2 * off <= power
  }

  lemma NearestInReals(eight: int, value: int, power: int)
    requires var off := Times(eight as real, power as real) - value as real * 100000000.0;
             -0.5 * power as real <= off <= 0.5 * power as real
    ensures Nearest(eight, value, power)
  {
    assert (eight * power) as real == Times(eight as real, power as real);
    assert (value * 100_000_000) as real == value as real * 100000000.0;
  }

  /** The credited number of units is the nearest one to the reported value. */
  lemma ToEightNearest(value: nat, decimals: nat) returns (eight: int)
    ensures ToEight(value, decimals) == eight as real && Nearest(eight, value, Pow10(decimals))
  {
    eight := HalfUp(value as real * 100000000.0 / Pow10(decimals) as real);
    RoundedQuotient(value as real * 100000000.0, Pow10(decimals) as real);
    NearestInReals(eight, value, Pow10(decimals));
  }

  lemma RoundedQuotient(a: real, power: real)
    requires 0.0 < power
    ensures -0.5 * power <= Times(HalfUp(a / power) as real, power) - a <= 0.5 * power
  {
    HalfUpError(a / power);
    OverTimes(a, power);
    TimesClose(HalfUp(a / power) as real, a / power, 0.5, power);
    TimesIsProduct(0.5, power);
  }

  /** Whole coins are credited as whole coins. */
  lemma WholeCoins(n: nat, decimals: nat)
    ensures ToEight(n * Pow10(decimals), decimals) == (n * 100_000_000) as real
  {
    var power: int := Pow10(decimals);
    var eight := ToEightNearest(n * power, decimals);
    var m := eight - n * 100_000_000;
    assert eight * power - n * power * 100_000_000 == m * power;
    Multiple(m, power);
  }

  lemma Multiple(m: int, power: int)
    requires 0 < power
    ensures m >= 1 ==> m * power >= power
    ensures m <= -1 ==> m * power <= -power
  {
    if m >= 1 {
      assert (m - 1) * power >= 0;
    } else if m <= -1 {
      assert (-m - 1) * power >= 0;
    }
  }

  /** An ether is credited as a coin. */
  lemma EtherIsACoin(n: nat)
    ensures ToEight(n * 1_000_000_000_000_000_000, 18) == (n * 100_000_000) as real
  {
    WeiPerEther();
    WholeCoins(n, 18);
  }

  // ---- what is credited

  /** The fee is the nearest whole number to the share, if the setting is a proper fraction, else nothing. */
  predicate KeptFee(rate: real, amount: real, fee: int)
  {
    if 0.0 < rate < 1.0 then -0.5 <= fee as real - amount * rate <= 0.5 else fee == 0
  }

  /** One record was added, and the owner's available money rose by `net`; nothing else changed. */
  ghost predicate Credited(s: SyncState, after: SyncState, user: int, coin: string, txid: string, net: int)
  {
    var k := Key(user, coin);
    && |after.received| == |s.received| + 1 && s.received <= after.received
    && after.received[|s.received|].coin == coin && after.received[|s.received|].txid == txid
    && after.received[|s.received|].payment.user == user
    && WalletOf(after.book, k) == WalletOf(s.book, k).(available := WalletOf(s.book, k).available + net)
    && (forall other :: other != k ==> WalletOf(after.book, other) == WalletOf(s.book, other))
    && after.cursor == s.cursor
  }

  lemma AddCreditsOwner(s: SyncState, p: Payment, txid: string)
    requires Balanced(s.book) && 0 <= HalfUp(p.amount - p.fee) && !Known(s.received, p.coin, txid)
    ensures Credited(s, Add(s, p, txid), p.user, p.coin, txid, HalfUp(p.amount - p.fee))
  {
    Creditable(s.book, p);
    HalfUpWhole(0);
  }

  lemma WholeNet(p: Payment, amount: int, fee: int)
    requires p.amount == amount as real && p.fee == fee as real
    ensures HalfUp(p.amount - p.fee) == amount - fee
  {
    assert p.amount - p.fee == (amount - fee) as real;
    HalfUpWhole(amount - fee);
  }

  lemma AddCreditsUnits(s: SyncState, p: Payment, txid: string, amount: int, fee: int)
    requires p.amount == amount as real && p.fee == fee as real
    requires Balanced(s.book) && fee <= amount && !Known(s.received, p.coin, txid)
    ensures Credited(s, Add(s, p, txid), p.user, p.coin, txid, amount - fee)
  {
    WholeNet(p, amount, fee);
    AddCreditsOwner(s, p, txid);
  }

  lemma FeeIsKept(coin: Coin, amount: real) returns (fee: int)
    ensures FeeOf(coin, amount) == fee as real && KeptFee(coin.receivedFee, amount, fee)
  {
    fee := if 0.0 < coin.receivedFee < 1.0 then HalfUp(Times(amount, coin.receivedFee)) else 0;
    HalfUpError(Times(amount, coin.receivedFee));
  }

  /** A transaction in the list of blocks, not yet on record. */
  ghost predicate Fresh(u: Setup, s: SyncState, txid: string, coin: string)
  {
    u.Sane() && Balanced(s.book) && txid in u.txs && !Known(s.received, coin, txid)
  }

  /** Ether: recorded exactly if it goes to a platform address from another one, and credited with the
      nearest number of units less the fee. */
  lemma EtherRecorded(u: Setup, s: SyncState, txid: string, coin: Coin) returns (eight: int, fee: int)
    requires u.service.Eth? && u.service.ethCoin == Some(coin) && Fresh(u, s, txid, coin.name)
    requires u.txs[txid].EthTx? && (u.txs[txid].value != 0 || u.txs[txid].input == "0x")
    ensures var tx, after := u.txs[txid], Record(u, s, txid);
            if tx.recipient.Some? && Address(coin.name, tx.recipient.value) in u.addresses
               && Address(coin.name, tx.sender) !in u.addresses
            then
              && Credited(s, after, u.addresses[Address(coin.name, tx.recipient.value)], coin.name, txid, eight - fee)
              && Nearest(eight, tx.value, 1_000_000_000_000_000_000)
              && KeptFee(coin.receivedFee, eight as real, fee)
            else after == s
  {
    var tx := u.txs[txid];
    WeiPerEther();
    eight := ToEightNearest(tx.value, 18);
    fee := FeeIsKept(coin, eight as real);
    var p := u.DepositIn(txid);
    if p.Some? {
      DepositsCredit(u.service, u.addresses, tx);
      WholeNet(p.value, eight, fee);
      AddCreditsUnits(s, p.value, txid, eight, fee);
    }
  }

  /** Log `i` is the first of a transaction that is a transfer event: three topics and data. */
  predicate FirstTransfer(logs: seq<Log>, i: nat)
  {
    && i < |logs| && logs[i].topics == 3 && logs[i].hasData
    && forall j :: 0 <= j < i ==> logs[j].topics != 3 || !logs[j].hasData
  }

  lemma {:induction false} FirstTransferDecides(coin: Coin, addresses: Addresses, logs: seq<Log>, i: nat)
    requires FirstTransfer(logs, i)
    ensures LogPayment(coin, addresses, logs) ==
            if Address(coin.name, logs[i].to) in addresses
            then Some(Pay(coin, addresses[Address(coin.name, logs[i].to)], logs[i].to,
                ToEight(logs[i].value, coin.decimals)))
            else None
    decreases i
  {
    if i > 0 {
      FirstTransferDecides(coin, addresses, logs[1..], i - 1);
    }
  }

  lemma {:induction false} NoTransferNoPayment(coin: Coin, addresses: Addresses, logs: seq<Log>)
    requires forall j :: 0 <= j < |logs| ==> logs[j].topics != 3 || !logs[j].hasData
    ensures LogPayment(coin, addresses, logs).None?
  {
    if logs != [] {
      NoTransferNoPayment(coin, addresses, logs[1..]);
    }
  }

  /** A call of a transfer method that got through: it did not use up its gas or create a contract. */
  predicate TransferCall(tx: Tx)
    requires tx.EthTx?
  {
    && tx.value == 0 && tx.recipient.Some?
    && ("0xa9059cbb" <= tx.input || "0x23b872dd" <= tx.input)
    && tx.receipt.Some? && tx.receipt.value.gasUsed < tx.gas && !tx.receipt.value.createdContract
  }

  /** Tokens: the first transfer event of a successful transfer call decides; it is recorded exactly if it
      is to a platform address, and credited with the nearest number of units less the fee. */
  lemma TokenRecorded(u: Setup, s: SyncState, txid: string, coin: Coin, i: nat) returns (eight: int, fee: int)
    requires u.service.Eth? && Fresh(u, s, txid, coin.name) && u.txs[txid].EthTx? && TransferCall(u.txs[txid])
    requires ToLower(u.txs[txid].recipient.value) in u.service.tokens
             && u.service.tokens[ToLower(u.txs[txid].recipient.value)] == coin
    requires FirstTransfer(u.txs[txid].receipt.value.logs, i)
    ensures var log, after := u.txs[txid].receipt.value.logs[i], Record(u, s, txid);
            if Address(coin.name, log.to) in u.addresses then
              && Credited(s, after, u.addresses[Address(coin.name, log.to)], coin.name, txid, eight - fee)
              && Nearest(eight, log.value, Pow10(coin.decimals))
              && KeptFee(coin.receivedFee, eight as real, fee)
            else after == s
  {
    var tx := u.txs[txid];
    var log := tx.receipt.value.logs[i];
    assert tx.input != "0x" by {
      assert |tx.input| >= 10;
    }
    FirstTransferDecides(coin, u.addresses, tx.receipt.value.logs, i);
    eight := ToEightNearest(log.value, coin.decimals);
    fee := FeeIsKept(coin, eight as real);
    var p := u.DepositIn(txid);
    if p.Some? {
      DepositsCredit(u.service, u.addresses, tx);
      WholeNet(p.value, eight, fee);
      AddCreditsUnits(s, p.value, txid, eight, fee);
    }
  }

  /** Omni: a complete, valid simple send of property 31 to a platform address from another one, and
      nothing else, is recorded, with the rounded amount less the fee. */
  lemma OmniRecorded(u: Setup, s: SyncState, txid: string) returns (fee: int)
    requires u.service.Omni? && Fresh(u, s, txid, u.service.coin.name) && u.txs[txid].OmniTx?
    ensures var tx, coin, after := u.txs[txid], u.service.coin, Record(u, s, txid);
            if tx.complete && tx.kind == "Simple Send" && tx.valid && tx.propertyId == "31"
               && Address(coin.name, tx.to) in u.addresses && Address(coin.name, tx.from) !in u.addresses
            then
              && KeptFee(coin.receivedFee, tx.amount, fee)
              && Credited(s, after, u.addresses[Address(coin.name, tx.to)], coin.name, txid,
                  HalfUp(tx.amount - fee as real))
            else after == s
  {
    var tx := u.txs[txid];
    fee := FeeIsKept(u.service.coin, tx.amount);
    var p := u.DepositIn(txid);
    if p.Some? {
      DepositsCredit(u.service, u.addresses, tx);
      AddCreditsOwner(s, p.value, txid);
    }
  }

  /** A detail that receives money for a named account of the wallet at a platform address. */
  predicate Receives(d: Detail, coin: string, addresses: Addresses)
  {
    d.complete && d.category == "receive" && d.account != "" && Address(coin, d.address) in addresses
  }

  /** BTC: the first receiving detail of a complete transaction of the wallet is recorded, with its rounded
      amount less the fee, and no other. */
  lemma BtcRecorded(u: Setup, s: SyncState, txid: string, i: nat) returns (fee: int)
    requires u.service.Btc? && Fresh(u, s, txid, u.service.coin.name) && u.txs[txid].BtcTx?
    requires i < |u.txs[txid].details| && Receives(u.txs[txid].details[i], u.service.coin.name, u.addresses)
    requires forall j :: 0 <= j < i ==> !Receives(u.txs[txid].details[j], u.service.coin.name, u.addresses)
    ensures var tx, coin, after := u.txs[txid], u.service.coin, Record(u, s, txid);
            var d := tx.details[i];
            if tx.inWallet && tx.complete then
              && KeptFee(coin.receivedFee, d.amount, fee)
              && Credited(s, after, u.addresses[Address(coin.name, d.address)], coin.name, txid,
                  HalfUp(d.amount - fee as real))
            else after == s
  {
    var tx, coin := u.txs[txid], u.service.coin;
    FirstMatchAt(coin, u.addresses, tx.details, i, |tx.details|);
    fee := FeeIsKept(coin, tx.details[i].amount);
    var p := u.DepositIn(txid);
    if p.Some? {
      DepositsCredit(u.service, u.addresses, tx);
      AddCreditsOwner(s, p.value, txid);
    }
  }

  lemma {:induction false} FirstMatchAt(coin: Coin, addresses: Addresses, details: seq<Detail>, i: nat, n: nat)
    requires i < n <= |details| && Receives(details[i], coin.name, addresses)
    requires forall j :: 0 <= j < i ==> !Receives(details[j], coin.name, addresses)
    ensures FirstMatch(coin, addresses, details, n)
         == Some(Pay(coin, addresses[Address(coin.name, details[i].address)], details[i].address, details[i].amount))
  {
    if i < n - 1 {
      FirstMatchAt(coin, addresses, details, i, n - 1);
    } else {
      FirstMatchIsFirst(coin, addresses, details, i);
    }
  }

  /** A BTC transaction without a receiving detail is not recorded. */
  lemma BtcNotRecorded(u: Setup, s: SyncState, txid: string)
    requires u.service.Btc? && txid in u.txs && u.txs[txid].BtcTx?
    requires forall j :: 0 <= j < |u.txs[txid].details| ==>
               !Receives(u.txs[txid].details[j], u.service.coin.name, u.addresses)
    ensures Record(u, s, txid) == s
  {
    FirstMatchIsFirst(u.service.coin, u.addresses, u.txs[txid].details, |u.txs[txid].details|);
  }

  /** A token call that is not such a transfer call, of no known token, or without a transfer event, is not
      recorded. */
  lemma TokenNotRecorded(u: Setup, s: SyncState, txid: string)
    requires u.service.Eth? && txid in u.txs && u.txs[txid].EthTx?
    requires var tx := u.txs[txid];
             && tx.value == 0 && tx.input != "0x"
             && (TransferCall(tx) && ToLower(tx.recipient.value) in u.service.tokens ==>
                   var logs := tx.receipt.value.logs;
                   forall j :: 0 <= j < |logs| ==> logs[j].topics != 3 || !logs[j].hasData)
    ensures Record(u, s, txid) == s
  {
    var tx := u.txs[txid];
    if TransferCall(tx) && ToLower(tx.recipient.value) in u.service.tokens {
      NoTransferNoPayment(u.service.tokens[ToLower(tx.recipient.value)], u.addresses, tx.receipt.value.logs);
    }
  }

  /** EOS: a token transfer of a positive amount to the base account with a user's memo, and nothing else, is
      recorded, with the rounded amount less the fee. */
  lemma ActionRecorded(u: EosSetup, s: SyncState, a: Action) returns (fee: int)
    requires Balanced(s.book) && !Known(s.received, u.coin.name, a.trxId)
    ensures var after := AddAction(u, s, a);
            if a.account == "eosio.token" && a.to == u.coinBase && a.memo != ""
               && Address(u.coin.name, a.memo) in u.addresses && 0.0 < a.amount
            then
              && KeptFee(u.coin.receivedFee, a.amount, fee)
              && Credited(s, after, u.addresses[Address(u.coin.name, a.memo)], u.coin.name, a.trxId,
                          HalfUp(a.amount - fee as real))
            else after == s
  {
    fee := FeeIsKept(u.coin, a.amount);
    var p := u.DepositIn(a);
    if p.Some? {
      CreditNotNegative(u.coin, p.value.user, a.memo, a.amount);
      AddCreditsOwner(s, p.value, a.trxId);
    }
  }
}
