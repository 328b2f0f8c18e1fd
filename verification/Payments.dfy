/** Which on-chain transactions are deposits: the parts of BitcoinService, UsdtService and EthService
    that read a transaction. Amounts are in units of 1e-8 coin. */
module Payments {
  import opened Rounding
  import opened Sums
  import opened Text

  datatype Coin = Coin(name: string, receivedFee: real, decimals: nat)

  /** An address bound to a wallet of a coin. */
  datatype Address = Address(coin: string, address: string)

  datatype Payment = Payment(user: int, coin: string, address: string, amount: real, fee: real)

  /** A detail of a wallet transaction; `complete` says that the four fields are present. */
  datatype Detail = Detail(complete: bool, category: string, address: string, account: string, amount: real)

  datatype Log = Log(topics: nat, hasData: bool, value: nat, to: string)

  datatype Receipt = Receipt(gasUsed: nat, createdContract: bool, logs: seq<Log>)

  datatype Tx =
    | BtcTx(inWallet: bool, complete: bool, details: seq<Detail>)
    | OmniTx(complete: bool, kind: string, valid: bool, propertyId: string, from: string, to: string, amount: real)
    | EthTx(value: nat, input: string, sender: string, recipient: Option<string>, gas: nat, receipt: Option<Receipt>)

  datatype Service =
    | Btc(coin: Coin)
    | Omni(coin: Coin)
    | Eth(ethCoin: Option<Coin>, tokens: map<string, Coin>)

  type Addresses = map<Address, int>

  /** The fee kept from a deposit: a proper fraction, rounded; any other setting means no fee. */
  function FeeOf(coin: Coin, amount: real): real
  {
    if 0.0 < coin.receivedFee < 1.0 then HalfUp(Times(amount, coin.receivedFee)) as real else 0.0
  }

  function Pay(coin: Coin, user: int, address: string, amount: real): Payment
  {
    Payment(user, coin.name, address, amount, FeeOf(coin, amount))
  }

  // ---- BTC

  function MatchDetail(coin: Coin, addresses: Addresses, d: Detail): Option<Payment>
  {
    if d.complete && d.category == "receive" && d.account != "" && Address(coin.name, d.address) in addresses then
      Some(Pay(coin, addresses[Address(coin.name, d.address)], d.address, d.amount))
    else None
  }

  /** The first matching detail among the first `n`. */
  function FirstMatch(coin: Coin, addresses: Addresses, details: seq<Detail>, n: nat): Option<Payment>
    requires n <= |details|
  {
    if n == 0 then None else
      match FirstMatch(coin, addresses, details, n - 1)
      case Some(p) => Some(p)
      case None => MatchDetail(coin, addresses, details[n - 1])
  }

  lemma {:induction false} FirstMatchIsFirst(coin: Coin, addresses: Addresses, details: seq<Detail>, n: nat)
    requires n <= |details|
    ensures FirstMatch(coin, addresses, details, n).None? <==>
              forall i :: 0 <= i < n ==> MatchDetail(coin, addresses, details[i]).None?
    ensures FirstMatch(coin, addresses, details, n).Some? ==>
              exists i :: 0 <= i < n
                          && MatchDetail(coin, addresses, details[i]) == FirstMatch(coin, addresses, details, n)
                          && forall j :: 0 <= j < i ==> MatchDetail(coin, addresses, details[j]).None?
  {
    if n > 0 {
      FirstMatchIsFirst(coin, addresses, details, n - 1);
    }
  }

  // ---- Omni

  function OmniPayment(coin: Coin, addresses: Addresses, tx: Tx): Option<Payment>
    requires tx.OmniTx?
  {
    if tx.complete && tx.kind == "Simple Send" && tx.valid && tx.propertyId == "31"
       && Address(coin.name, tx.to) in addresses && Address(coin.name, tx.from) !in addresses then
      Some(Pay(coin, addresses[Address(coin.name, tx.to)], tx.to, tx.amount))
    else None
  }

  // ---- ETH

  function Pow10(n: nat): (r: nat)
    ensures r >= 1
  {
    if n == 0 then 1 else 10 * Pow10(n - 1)
  }

  /** A chain amount with `decimals` decimal places, rounded to eight. */
  function ToEight(value: nat, decimals: nat): real
  {
    HalfUp(value as real * 100000000.0 / Pow10(decimals) as real) as real
  }

  predicate IsTokenCall(tx: Tx)
    requires tx.EthTx?
  {
    tx.value == 0 && tx.input != "0x"
  }

  function EtherPayment(ethCoin: Option<Coin>, addresses: Addresses, tx: Tx): Option<Payment>
    requires tx.EthTx?
  {
    if ethCoin.None? || tx.recipient.None? then None else
      var coin := ethCoin.value;
      if Address(coin.name, tx.recipient.value) in addresses && Address(coin.name, tx.sender) !in addresses then
        Some(Pay(coin, addresses[Address(coin.name, tx.recipient.value)], tx.recipient.value, ToEight(tx.value, 18)))
      else None
  }

  predicate Eligible(log: Log)
  {
    log.topics == 3 && log.hasData
  }

  /** The first transfer event decides; when it is not to the platform, later ones are not looked at. */
  function LogPayment(coin: Coin, addresses: Addresses, logs: seq<Log>): Option<Payment>
  {
    if logs == [] then None
    else if !Eligible(logs[0]) then LogPayment(coin, addresses, logs[1..])
    else if Address(coin.name, logs[0].to) in addresses then
      Some(Pay(coin, addresses[Address(coin.name, logs[0].to)], logs[0].to, ToEight(logs[0].value, coin.decimals)))
    else None
  }

  predicate IsTransfer(input: string)
  {
    "0xa9059cbb" <= input || "0x23b872dd" <= input
  }

  function TokenPayment(tokens: map<string, Coin>, addresses: Addresses, tx: Tx): Option<Payment>
    requires tx.EthTx?
  {
    if tx.recipient.None? || ToLower(tx.recipient.value) !in tokens || !IsTransfer(tx.input) || tx.receipt.None?
       || tx.receipt.value.gasUsed >= tx.gas || tx.receipt.value.createdContract then None
    else LogPayment(tokens[ToLower(tx.recipient.value)], addresses, tx.receipt.value.logs)
  }

  /** The deposit a transaction makes, if it makes one. */
  function PaymentOf(service: Service, addresses: Addresses, tx: Tx): Option<Payment>
  {
    match service
    case Btc(coin) =>
      if tx.BtcTx? && tx.inWallet && tx.complete then FirstMatch(coin, addresses, tx.details, |tx.details|) else None
    case Omni(coin) =>
      if tx.OmniTx? then OmniPayment(coin, addresses, tx) else None
    case Eth(ethCoin, tokens) =>
      if !tx.EthTx? then None
      else if IsTokenCall(tx) then TokenPayment(tokens, addresses, tx)
      else EtherPayment(ethCoin, addresses, tx)
  }

  /** Chains do not report negative amounts. */
  predicate SaneTx(tx: Tx)
  {
    match tx
    case BtcTx(_, _, details) => forall d :: d in details ==> 0.0 <= d.amount
    case OmniTx(_, _, _, _, _, _, amount) => 0.0 <= amount
    case EthTx(_, _, _, _, _, _) => true
  }

  /** Keeping the rounded fee never turns a deposit into a charge. */
  lemma CreditNotNegative(coin: Coin, user: int, address: string, amount: real)
    requires 0.0 <= amount
    ensures var p := Pay(coin, user, address, amount); 0 <= HalfUp(p.amount - p.fee)
  {
    if 0.0 < coin.receivedFee < 1.0 {
      TimesFraction(amount, coin.receivedFee);
      RestNotNegative(amount, Times(amount, coin.receivedFee));
    } else {
      HalfUpSign(amount);
    }
  }

  lemma RestNotNegative(amount: real, share: real)
    requires 0.0 <= share <= amount
    requires 0.0 < amount ==> share < amount
    ensures 0 <= HalfUp(amount - HalfUp(share) as real)
  {
    HalfUpError(share);
    if amount == 0.0 {
      HalfUpWhole(0);
    } else {
      assert amount - HalfUp(share) as real > -0.5;
    }
  }

  lemma ToEightNotNegative(value: nat, decimals: nat)
    ensures 0.0 <= ToEight(value, decimals)
  {
    HalfUpSign(value as real * 100000000.0 / Pow10(decimals) as real);
  }

  lemma {:induction false} FirstMatchCredit(coin: Coin, addresses: Addresses, details: seq<Detail>, n: nat)
    requires n <= |details| && forall d :: d in details ==> 0.0 <= d.amount
    ensures var p := FirstMatch(coin, addresses, details, n); p.Some? ==> 0 <= HalfUp(p.value.amount - p.value.fee)
  {
    if n > 0 {
      FirstMatchCredit(coin, addresses, details, n - 1);
      var d := details[n - 1];
      if MatchDetail(coin, addresses, d).Some? {
        CreditNotNegative(coin, addresses[Address(coin.name, d.address)], d.address, d.amount);
      }
    }
  }

  lemma {:induction false} LogCredit(coin: Coin, addresses: Addresses, logs: seq<Log>)
    ensures var p := LogPayment(coin, addresses, logs); p.Some? ==> 0 <= HalfUp(p.value.amount - p.value.fee)
  {
    if logs != [] {
      LogCredit(coin, addresses, logs[1..]);
      ToEightNotNegative(logs[0].value, coin.decimals);
      if Address(coin.name, logs[0].to) in addresses {
        CreditNotNegative(coin, addresses[Address(coin.name, logs[0].to)], logs[0].to,
            ToEight(logs[0].value, coin.decimals));
      }
    }
  }

  /** Whatever the service, what a deposit credits after its fee is not negative. */
  lemma DepositsCredit(service: Service, addresses: Addresses, tx: Tx)
    requires SaneTx(tx)
    ensures var p := PaymentOf(service, addresses, tx); p.Some? ==> 0 <= HalfUp(p.value.amount - p.value.fee)
  {
    var p := PaymentOf(service, addresses, tx);
    if p.Some? {
      match service
      case Btc(coin) => FirstMatchCredit(coin, addresses, tx.details, |tx.details|);
      case Omni(coin) => CreditNotNegative(coin, p.value.user, p.value.address, tx.amount);
      case Eth(ethCoin, tokens) =>
        if IsTokenCall(tx) {
          LogCredit(tokens[ToLower(tx.recipient.value)], addresses, tx.receipt.value.logs);
        } else {
          ToEightNotNegative(tx.value, 18);
          CreditNotNegative(ethCoin.value, p.value.user, p.value.address, ToEight(tx.value, 18));
        }
    }
  }
}
