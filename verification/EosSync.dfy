/** EosService: deposits are read from an account's action history, window by window. */
module EosDeposits {
  import opened Deposits
  import opened Ledgers
  import opened Payments
  import opened Sums

  /** An action of the account history; `amount` is the quantity when it is in the coin, else zero. */
  datatype Action = Action(trxId: string, account: string, to: string, memo: string, amount: real)

  datatype EosSetup = EosSetup(coin: Coin, coinBase: string, addresses: Addresses, history: seq<Action>) {

    /** The deposit an action makes: a token transfer to the base account with the memo of a user. */
    function DepositIn(a: Action): Option<Payment>
    {
      if a.account == "eosio.token" && a.to == coinBase && a.memo != "" && Address(coin.name, a.memo) in addresses
         && 0.0 < a.amount then
        Some(Pay(coin, addresses[Address(coin.name, a.memo)], a.memo, a.amount))
      else None
    }
  }

  // ---- removeDuplicate

  predicate Occurs(list: seq<Action>, trxId: string)
  {
    exists i :: 0 <= i < |list| && list[i].trxId == trxId
  }

  /** The list without the actions whose transaction occurred before. */
  function FirstOccurrences(list: seq<Action>): seq<Action>
  {
    if list == [] then [] else
      var before, last := list[..|list| - 1], list[|list| - 1];
      FirstOccurrences(before) + if Occurs(before, last.trxId) then [] else [last]
  }

  /** Dropping a repetition does not change which occurrences come first. */
  lemma {:induction false} DropRepetition(list: seq<Action>, i: nat, j: nat)
    requires i < j < |list| && list[i].trxId == list[j].trxId
    ensures FirstOccurrences(list[..j] + list[j + 1..]) == FirstOccurrences(list)
  {
    var n := |list| - 1;
    if j == n {
      assert list[..j] + list[j + 1..] == list[..n];
      assert list[..n][i].trxId == list[n].trxId;
    } else {
      var shorter := list[..j] + list[j + 1..];
      assert shorter[..|shorter| - 1] == list[..n][..j] + list[..n][j + 1..];
      DropRepetition(list[..n], i, j);
      SameOccurrences(list[..n], i, j, list[n].trxId);
    }
  }

  lemma SameOccurrences(list: seq<Action>, i: nat, j: nat, trxId: string)
    requires i < j < |list| && list[i].trxId == list[j].trxId
    ensures Occurs(list[..j] + list[j + 1..], trxId) == Occurs(list, trxId)
  {
    var shorter := list[..j] + list[j + 1..];
    if k :| 0 <= k < |list| && list[k].trxId == trxId {
      var m := if k < j then k else if k == j then i else k - 1;
      assert shorter[m].trxId == trxId;
    }
    if m :| 0 <= m < |shorter| && shorter[m].trxId == trxId {
      assert list[if m < j then m else m + 1].trxId == trxId;
    }
  }

  lemma {:induction false} NothingToDrop(list: seq<Action>)
    requires forall i, j :: 0 <= i < j < |list| ==> list[i].trxId != list[j].trxId
    ensures FirstOccurrences(list) == list
  {
    if list != [] {
      NothingToDrop(list[..|list| - 1]);
      assert list[..|list| - 1] + [list[|list| - 1]] == list;
    }
  }

  /** removeDuplicate, deleting in place with a backward inner loop. */
  method RemoveDuplicate(actions: seq<Action>) returns (list: seq<Action>)
    ensures list == FirstOccurrences(actions)
    ensures forall i, j :: 0 <= i < j < |list| ==> list[i].trxId != list[j].trxId
  {
    list := actions;
    var i := 0;
    while i < |list| - 1
      invariant 0 <= i <= |list|
      invariant FirstOccurrences(list) == FirstOccurrences(actions)
      invariant forall k, l :: 0 <= k < i && k < l < |list| ==> list[k].trxId != list[l].trxId
      decreases |list| - i
    {
      ghost var length := |list|;
      var j := |list| - 1;
      while j > i
        invariant i <= j < |list| <= length
        invariant FirstOccurrences(list) == FirstOccurrences(actions)
        invariant forall k, l :: 0 <= k < i && k < l < |list| ==> list[k].trxId != list[l].trxId
        invariant forall l :: j < l < |list| ==> list[l].trxId != list[i].trxId
        decreases j
      {
        if list[j].trxId == list[i].trxId {
          DropRepetition(list, i, j);
          list := list[..j] + list[j + 1..];
        }
        j := j - 1;
      }
      i := i + 1;
    }
    NothingToDrop(list);
  }

  // ---- getActions

  function AddAction(u: EosSetup, s: SyncState, a: Action): SyncState
  {
    match u.DepositIn(a)
    case None => s
    case Some(p) => Add(s, p, a.trxId)
  }

  function AddActions(u: EosSetup, s: SyncState, list: seq<Action>): SyncState
  {
    if list == [] then s else AddAction(u, AddActions(u, s, list[..|list| - 1]), list[|list| - 1])
  }

  /** One call: the size of the window the server returned, and how many actions of the deduplicated
      window were processed before a failure, if there was one. */
  datatype Window = Window(size: nat, failedAfter: Option<nat>)

  function Cursor(s: SyncState): int
  {
    if s.cursor.Some? then s.cursor.value else 0
  }

  predicate Returned(u: EosSetup, s: SyncState, w: Window)
  {
    && 0 <= Cursor(s) && Cursor(s) + w.size <= |u.history|
    && (w.failedAfter.Some? ==> w.failedAfter.value <= |FirstOccurrences(Actions(u, s, w))|)
  }

  function Actions(u: EosSetup, s: SyncState, w: Window): seq<Action>
  {
    if 0 <= Cursor(s) && Cursor(s) + w.size <= |u.history| then u.history[Cursor(s)..Cursor(s) + w.size] else []
  }

  /** The cursor moves by the size before deduplication, and only when the whole window was processed. */
  function Applied(u: EosSetup, s: SyncState, actions: seq<Action>, failedAfter: Option<nat>): SyncState
    requires failedAfter.Some? ==> failedAfter.value <= |FirstOccurrences(actions)|
  {
    var list := FirstOccurrences(actions);
    match failedAfter
    case Some(n) => AddActions(u, s, list[..n])
    case None => if actions == [] then s else AddActions(u, s, list).(cursor := Some(Cursor(s) + |actions|))
  }

  function AfterWindow(u: EosSetup, s: SyncState, w: Window): SyncState
    requires Returned(u, s, w)
  {
    Applied(u, s, Actions(u, s, w), w.failedAfter)
  }

  class EosSync {
    const u: EosSetup
    const sync: DepositSync

    constructor (u: EosSetup, sync: DepositSync)
      ensures this.u == u && this.sync == sync
    {
      this.u, this.sync := u, sync;
    }

    /** One round of the loop of getActions. */
    method SyncAction(a: Action)
      requires sync.Valid()
      modifies sync`received, sync.ledger
      ensures sync.Valid() && sync.State() == AddAction(u, old(sync.State()), a)
    {
      if a.account != "eosio.token" || a.to != u.coinBase || a.memo == "" {
        return;
      }
      if Address(u.coin.name, a.memo) !in u.addresses || a.amount <= 0.0 {
        return;
      }
      CreditNotNegative(u.coin, u.addresses[Address(u.coin.name, a.memo)], a.memo, a.amount);
      sync.AddIfNew(Pay(u.coin, u.addresses[Address(u.coin.name, a.memo)], a.memo, a.amount), a.trxId);
    }

    method SyncActions(list: seq<Action>, fault: Fault) returns (done: nat)
      requires sync.Valid()
      modifies sync`received, sync.ledger
      ensures sync.Valid() && done <= |list|
      ensures sync.State() == AddActions(u, old(sync.State()), list[..done])
      ensures fault.NoFault? ==> done == |list|
    {
      for i := 0 to |list|
        invariant sync.Valid()
        invariant sync.State() == AddActions(u, old(sync.State()), list[..i])
      {
        if fault.FaultAfter? && i == fault.steps {
          return i;
        }
        assert list[..i + 1][..i] == list[..i];
        SyncAction(list[i]);
      }
      return |list|;
    }

    /** eosJob and getActions for one coin, given the answer of the server. The cursor is saved unless
        an action failed, or the process is gone by then. */
    method GetActions(answer: Option<seq<Action>>, fault: Fault) returns (ghost w: Window)
      requires sync.Valid()
      requires Answers(u, sync.State(), if answer.Some? then answer.value else [])
      modifies sync, sync.ledger
      ensures sync.Valid()
      ensures Returned(u, old(sync.State()), w) && sync.State() == AfterWindow(u, old(sync.State()), w)
      ensures answer.Some? ==> w.size == |answer.value|
      ensures fault.NoFault? ==> w.failedAfter.None?
    {
      ghost var start := sync.State();
      if answer.None? || |answer.value| == 0 {
        WindowOfCall(u, start, [], None);
        return Window(0, None);
      }
      ghost var failedAfter := ProcessActions(answer.value, fault);
      w := Window(|answer.value|, failedAfter);
      WindowOfCall(u, start, answer.value, failedAfter);
    }

    /** A window that is not empty: deduplicated, processed, and the cursor moved by its size as it was. */
    method ProcessActions(actions: seq<Action>, fault: Fault) returns (ghost failedAfter: Option<nat>)
      requires sync.Valid() && actions != []
      modifies sync, sync.ledger
      ensures sync.Valid()
      ensures failedAfter.Some? ==> failedAfter.value <= |FirstOccurrences(actions)|
      ensures sync.State() == Applied(u, old(sync.State()), actions, failedAfter)
      ensures fault.NoFault? ==> failedAfter.None?
    {
      var index := if sync.cursor.Some? then sync.cursor.value else 0;
      var reIndex := index + |actions|;
      var list := RemoveDuplicate(actions);
      var done := SyncActions(list, fault);
      if done < |list| || (fault.FaultAfter? && fault.crash) {
        return Some(done);
      }
      assert list[..|list|] == list;
      if reIndex > index {
        sync.cursor := Some(reIndex);
      }
      failedAfter := None;
    }
  }

  /** The server answers with the history from the cursor on. */
  ghost predicate Answers(u: EosSetup, s: SyncState, answer: seq<Action>)
  {
    && 0 <= Cursor(s) && Cursor(s) + |answer| <= |u.history|
    && answer == u.history[Cursor(s)..Cursor(s) + |answer|]
  }

  /** The window of a call is its answer. */
  lemma WindowOfCall(u: EosSetup, s: SyncState, answer: seq<Action>, failedAfter: Option<nat>)
    requires Answers(u, s, answer) && (failedAfter.Some? ==> failedAfter.value <= |FirstOccurrences(answer)|)
    ensures Returned(u, s, Window(|answer|, failedAfter))
    ensures AfterWindow(u, s, Window(|answer|, failedAfter)) == Applied(u, s, answer, failedAfter)
  {
    assert Actions(u, s, Window(|answer|, failedAfter)) == answer;
  }

  // ---- what the windows add up to

  function Windows(u: EosSetup, s: SyncState, ws: seq<Window>): SyncState
  {
    if ws == [] then s else
      var before, w := Windows(u, s, ws[..|ws| - 1]), ws[|ws| - 1];
      if Returned(u, before, w) then AfterWindow(u, before, w) else before
  }

  /** The actions of the windows that were processed completely, in order. */
  function ProcessedActions(u: EosSetup, s: SyncState, ws: seq<Window>): seq<Action>
  {
    if ws == [] then [] else
      var before, w := Windows(u, s, ws[..|ws| - 1]), ws[|ws| - 1];
      ProcessedActions(u, s, ws[..|ws| - 1])
      + if Returned(u, before, w) && w.failedAfter.None? then Actions(u, before, w) else []
  }

  lemma {:induction false} CursorKept(u: EosSetup, s: SyncState, list: seq<Action>)
    ensures AddActions(u, s, list).cursor == s.cursor
  {
    if list != [] {
      CursorKept(u, s, list[..|list| - 1]);
    }
  }

  lemma CursorMoves(u: EosSetup, s: SyncState, w: Window)
    requires Returned(u, s, w)
    ensures Cursor(AfterWindow(u, s, w)) == Cursor(s) + if w.failedAfter.None? then w.size else 0
  {
    var list := FirstOccurrences(Actions(u, s, w));
    CursorKept(u, s, list);
    if w.failedAfter.Some? {
      CursorKept(u, s, list[..w.failedAfter.value]);
    }
  }

  /** Whatever windows are returned and whichever of them fail, the completely processed windows tile
      the history from the first cursor to the last: no action is skipped and none is read twice. */
  lemma {:induction false} WindowsTile(u: EosSetup, s: SyncState, ws: seq<Window>)
    requires 0 <= Cursor(s) <= |u.history|
    ensures Cursor(s) <= Cursor(Windows(u, s, ws)) <= |u.history|
    ensures ProcessedActions(u, s, ws) == u.history[Cursor(s)..Cursor(Windows(u, s, ws))]
    ensures Cursor(s) == if s.cursor.Some? then s.cursor.value else 0
  {
    if ws != [] {
      var n := |ws| - 1;
      WindowsTile(u, s, ws[..n]);
      var before, w := Windows(u, s, ws[..n]), ws[n];
      if Returned(u, before, w) {
        WindowTiles(u, before, w, Cursor(s));
      }
    }
  }

  /** A window that was processed completely continues what was read from `a` on; any other adds nothing. */
  lemma WindowTiles(u: EosSetup, s: SyncState, w: Window, a: int)
    requires Returned(u, s, w) && 0 <= a <= Cursor(s)
    ensures var c := Cursor(AfterWindow(u, s, w));
            && Cursor(s) <= c <= |u.history|
            && u.history[a..Cursor(s)] + (if w.failedAfter.None? then Actions(u, s, w) else []) == u.history[a..c]
  {
    CursorMoves(u, s, w);
    if w.failedAfter.None? {
      Tiles(u.history, a, Cursor(s), Cursor(s) + w.size);
    }
  }

  lemma Tiles(history: seq<Action>, a: int, b: int, c: int)
    requires 0 <= a <= b <= c <= |history|
    ensures history[a..b] + history[b..c] == history[a..c]
  {
  }

  /** What a window puts on record: a transaction is on record afterwards exactly if it was before, or
      if its first action in the window is a deposit. */
  lemma {:induction false} RecordsFirstActions(u: EosSetup, s: SyncState, list: seq<Action>, trxId: string)
    requires Balanced(s.book)
    ensures Balanced(AddActions(u, s, FirstOccurrences(list)).book)
    ensures Known(AddActions(u, s, FirstOccurrences(list)).received, u.coin.name, trxId) <==>
              || Known(s.received, u.coin.name, trxId)
              || exists i :: 0 <= i < |list| && list[i].trxId == trxId && !Occurs(list[..i], trxId)
                             && u.DepositIn(list[i]).Some?
  {
    if list != [] {
      var n := |list| - 1;
      var before, last := list[..n], list[n];
      RecordsFirstActions(u, s, before, trxId);
      FirstActionsGrow(u, list, trxId);
      if !Occurs(before, last.trxId) {
        assert FirstOccurrences(list)[..|FirstOccurrences(list)| - 1] == FirstOccurrences(before);
        AddActionKnows(u, AddActions(u, s, FirstOccurrences(before)), last, trxId);
      } else {
        assert FirstOccurrences(list) == FirstOccurrences(before);
      }
    }
  }

  lemma FirstActionsGrow(u: EosSetup, list: seq<Action>, trxId: string)
    requires list != []
    ensures var n := |list| - 1;
            (exists i :: 0 <= i < |list| && list[i].trxId == trxId && !Occurs(list[..i], trxId)
                         && u.DepositIn(list[i]).Some?)
            <==> (|| (exists i :: 0 <= i < n && list[..n][i].trxId == trxId && !Occurs(list[..n][..i], trxId)
                                  && u.DepositIn(list[..n][i]).Some?)
                  || (list[n].trxId == trxId && !Occurs(list[..n], trxId) && u.DepositIn(list[n]).Some?))
  {
    var n := |list| - 1;
    assert forall i :: 0 <= i < n ==> list[..n][..i] == list[..i] && list[..n][i] == list[i];
    var before := list[..n];
    if i :| 0 <= i < n && before[i].trxId == trxId && !Occurs(before[..i], trxId) && u.DepositIn(before[i]).Some? {
      assert list[i].trxId == trxId && !Occurs(list[..i], trxId) && u.DepositIn(list[i]).Some?;
    }
    if i :| 0 <= i < |list| && list[i].trxId == trxId && !Occurs(list[..i], trxId) && u.DepositIn(list[i]).Some? {
      if i < n {
        assert list[..n][i].trxId == trxId && !Occurs(list[..n][..i], trxId);
      }
    }
  }

  lemma AddActionKnows(u: EosSetup, s: SyncState, a: Action, trxId: string)
    requires Balanced(s.book)
    ensures Balanced(AddAction(u, s, a).book)
    ensures Known(AddAction(u, s, a).received, u.coin.name, trxId) <==>
              Known(s.received, u.coin.name, trxId) || (a.trxId == trxId && u.DepositIn(a).Some?)
  {
    var p := u.DepositIn(a);
    if p.Some? {
      CreditNotNegative(u.coin, p.value.user, a.memo, a.amount);
      Creditable(s.book, p.value);
      AddedIsKnown(s, p.value, a.trxId);
      if !Known(s.received, u.coin.name, a.trxId) {
        PostKeepsBalance(s.book, CreditOf(p.value));
        var after := AddAction(u, s, a);
        forall i | 0 <= i < |s.received| ensures after.received[i] == s.received[i] {
        }
        if k :| 0 <= k < |s.received| && s.received[k].coin == u.coin.name && s.received[k].txid == trxId {
          assert after.received[k].txid == trxId;
        }
      }
    }
  }

  /** The deduplication is by transaction, not by action: a deposit that is the second action of its
      transaction in a window is dropped with the window. */
  lemma SecondActionIsLost(u: EosSetup, s: SyncState, other: Action, deposit: Action)
    requires Balanced(s.book)
    requires other.trxId == deposit.trxId && u.DepositIn(other).None? && u.DepositIn(deposit).Some?
    requires !Known(s.received, u.coin.name, deposit.trxId)
    ensures !Known(AddActions(u, s, FirstOccurrences([other, deposit])).received, u.coin.name, deposit.trxId)
    ensures Known(AddActions(u, s, FirstOccurrences([deposit, other])).received, u.coin.name, deposit.trxId)
  {
    var lost, found := [other, deposit], [deposit, other];
    RecordsFirstActions(u, s, lost, deposit.trxId);
    RecordsFirstActions(u, s, found, deposit.trxId);
    assert lost[..1][0].trxId == deposit.trxId && Occurs(lost[..1], deposit.trxId);
    assert found[..0] == [] && found[0].trxId == deposit.trxId && !Occurs(found[..0], deposit.trxId);
  }
}
