/** What EosService guarantees over every sequence of windows, and which deposits it loses. */
module EosRuns {
  import opened Deposits
  import opened EosDeposits
  import opened Ledgers
  import opened Payments
  import opened Sums
  import opened SyncRuns

  /** The actions of a window that are looked at: first occurrences, up to the failure if there is one. */
  function Processed(u: EosSetup, s: SyncState, w: Window): seq<Action>
    requires Returned(u, s, w)
  {
    var list := FirstOccurrences(Actions(u, s, w));
    if w.failedAfter.Some? then list[..w.failedAfter.value] else list
  }

  ghost predicate FromHistory(u: EosSetup, list: seq<Action>)
  {
    forall a :: a in list ==> a in u.history
  }

  /** A record is the deposit of an action of its transaction. */
  ghost predicate MadeBy(u: EosSetup, r: Received)
  {
    exists a :: a in u.history && a.trxId == r.txid && u.DepositIn(a) == Some(r.payment)
  }

  ghost predicate AddsMade(u: EosSetup, s: SyncState, after: SyncState)
  {
    forall i :: |s.received| <= i < |after.received| ==> MadeBy(u, after.received[i])
  }

  /** Some action of the transaction in the list is a deposit. */
  ghost predicate Holds(u: EosSetup, list: seq<Action>, trxId: string)
  {
    exists a :: a in list && a.trxId == trxId && u.DepositIn(a).Some?
  }

  // ---- first occurrences

  /** Action `i` of the list is `a`, and its transaction did not occur before. */
  ghost predicate FirstAt(list: seq<Action>, i: nat, a: Action)
  {
    i < |list| && list[i] == a && !Occurs(list[..i], a.trxId)
  }

  lemma FirstAtShorter(list: seq<Action>, n: nat, i: nat, a: Action)
    requires i < n <= |list|
    ensures FirstAt(list[..n], i, a) == FirstAt(list, i, a)
  {
    assert list[..n][..i] == list[..i];
  }

  lemma LastSurvives(list: seq<Action>, a: Action)
    requires list != []
    ensures var n := |list| - 1;
            a in FirstOccurrences(list) <==> a in FirstOccurrences(list[..n]) || FirstAt(list, n, a)
  {
  }

  lemma FirstsGrow(list: seq<Action>, a: Action)
    requires list != []
    ensures var before := list[..|list| - 1];
            (exists i: nat :: FirstAt(list, i, a)) <==>
              (exists i: nat :: FirstAt(before, i, a)) || FirstAt(list, |list| - 1, a)
  {
    var n := |list| - 1;
    forall i: nat | i < n ensures FirstAt(list[..n], i, a) == FirstAt(list, i, a) {
      FirstAtShorter(list, n, i, a);
    }
    if i: nat :| FirstAt(list[..n], i, a) {
      assert FirstAt(list, i, a);
    }
  }

  /** The actions that survive deduplication are those whose transaction did not occur before. */
  lemma {:induction false} SurvivesExactly(list: seq<Action>, a: Action)
    ensures a in FirstOccurrences(list) <==> exists i: nat :: FirstAt(list, i, a)
  {
    if list != [] {
      SurvivesExactly(list[..|list| - 1], a);
      LastSurvives(list, a);
      FirstsGrow(list, a);
    }
  }

  /** What survives keeps the order of the list: it is the first occurrences at increasing places. */
  lemma {:induction false} KeepsOrder(list: seq<Action>) returns (at: seq<nat>)
    ensures |at| == |FirstOccurrences(list)|
    ensures forall k :: 0 <= k < |at| ==> FirstAt(list, at[k], FirstOccurrences(list)[k])
    ensures forall k, l :: 0 <= k < l < |at| ==> at[k] < at[l]
  {
    at := [];
    if list != [] {
      var n := |list| - 1;
      at := KeepsOrder(list[..n]);
      forall k | 0 <= k < |at| ensures at[k] < n && FirstAt(list, at[k], FirstOccurrences(list[..n])[k]) {
        FirstAtShorter(list, n, at[k], FirstOccurrences(list[..n])[k]);
      }
      if !Occurs(list[..n], list[n].trxId) {
        at := at + [n];
      }
    }
  }

  lemma OccursBefore(list: seq<Action>, m: nat, trxId: string)
    requires m <= |list|
    ensures Occurs(list[..m], trxId) <==> exists x :: 0 <= x < m && list[x].trxId == trxId
  {
    if x :| 0 <= x < m && list[x].trxId == trxId {
      assert list[..m][x].trxId == trxId;
    }
  }

  lemma FirstOfItsKind(list: seq<Action>, a: Action) returns (m: nat)
    requires a in FirstOccurrences(list)
    ensures m < |list| && list[m] == a
    ensures forall x :: 0 <= x < |list| && list[x].trxId == a.trxId ==> m <= x
  {
    SurvivesExactly(list, a);
    m :| FirstAt(list, m, a);
    OccursBefore(list, m, a.trxId);
  }

  lemma ProcessedFromHistory(u: EosSetup, s: SyncState, w: Window)
    requires Returned(u, s, w)
    ensures FromHistory(u, Processed(u, s, w))
  {
    forall a | a in Processed(u, s, w) ensures a in u.history {
      SurvivesExactly(Actions(u, s, w), a);
    }
  }

  // ---- adding actions

  lemma {:induction false} AddActionsSound(u: EosSetup, s: SyncState, list: seq<Action>, start: Book,
                                          history: seq<Entry>)
    requires CreditedOnce(s.received, s.book, start, history) && FromHistory(u, list)
    ensures var after := AddActions(u, s, list); Extends(s, after, start, history) && AddsMade(u, s, after)
  {
    if list == [] {
      ExtendsNothing(s, start, history);
    } else {
      var n := |list| - 1;
      var before, a := AddActions(u, s, list[..n]), list[n];
      var after := AddAction(u, before, a);
      assert FromHistory(u, list[..n]) by {
        assert forall b :: b in list[..n] ==> b in list;
      }
      assert a in list;
      AddActionsSound(u, s, list[..n], start, history);
      AddActionSound(u, before, a, start, Grown(history, s.received, before.received));
      ExtendsTwice(s, before, after, start, history);
      forall i | |s.received| <= i < |after.received| ensures MadeBy(u, after.received[i]) {
        if i < |before.received| {
          assert after.received[i] == before.received[i];
        }
      }
    }
  }

  lemma AddActionSound(u: EosSetup, s: SyncState, a: Action, start: Book, history: seq<Entry>)
    requires CreditedOnce(s.received, s.book, start, history) && a in u.history
    ensures var after := AddAction(u, s, a); Extends(s, after, start, history) && AddsMade(u, s, after)
  {
    var p := u.DepositIn(a);
    if p.Some? {
      CreditNotNegative(u.coin, p.value.user, a.memo, a.amount);
      AddCredits(s, p.value, a.trxId, start, history);
      assert MadeBy(u, Received(p.value.coin, a.trxId, p.value));
    } else {
      ExtendsNothing(s, start, history);
    }
  }

  lemma {:induction false} AddActionsKnow(u: EosSetup, s: SyncState, list: seq<Action>, trxId: string)
    requires Balanced(s.book)
    ensures Balanced(AddActions(u, s, list).book)
    ensures Known(AddActions(u, s, list).received, u.coin.name, trxId) <==>
            Known(s.received, u.coin.name, trxId) || Holds(u, list, trxId)
  {
    if list != [] {
      var n := |list| - 1;
      AddActionsKnow(u, s, list[..n], trxId);
      AddActionKnows(u, AddActions(u, s, list[..n]), list[n], trxId);
      assert list == list[..n] + [list[n]];
      assert Holds(u, list, trxId) <==>
             Holds(u, list[..n], trxId) || (list[n].trxId == trxId && u.DepositIn(list[n]).Some?);
    }
  }

  // ---- windows

  /** A window, failing anywhere, records and credits each transaction at most once, as the deposit of
      one of its actions. */
  lemma WindowSound(u: EosSetup, s: SyncState, w: Window, start: Book, history: seq<Entry>)
    requires CreditedOnce(s.received, s.book, start, history) && Returned(u, s, w)
    ensures var after := AfterWindow(u, s, w); Extends(s, after, start, history) && AddsMade(u, s, after)
  {
    ProcessedFromHistory(u, s, w);
    AddActionsSound(u, s, Processed(u, s, w), start, history);
    WindowBooks(u, s, w);
  }

  /** Window `k` of a sequence is possible, and an action it processes is a deposit of the transaction. */
  ghost predicate FindsAt(u: EosSetup, s: SyncState, ws: seq<Window>, k: nat, trxId: string)
  {
    && k < |ws|
    && var before := Windows(u, s, ws[..k]);
       Returned(u, before, ws[k]) && Holds(u, Processed(u, before, ws[k]), trxId)
  }

  /** A transaction is on record after a sequence of windows exactly if it was before, or if one of the
      windows processed a deposit of it. */
  lemma {:induction false} RecordsExactly(u: EosSetup, s: SyncState, ws: seq<Window>, trxId: string)
    requires Balanced(s.book)
    ensures Balanced(Windows(u, s, ws).book)
    ensures Known(Windows(u, s, ws).received, u.coin.name, trxId) <==>
            Known(s.received, u.coin.name, trxId) || exists k: nat :: FindsAt(u, s, ws, k, trxId)
  {
    if ws != [] {
      var n := |ws| - 1;
      var before, w := Windows(u, s, ws[..n]), ws[n];
      RecordsExactly(u, s, ws[..n], trxId);
      if Returned(u, before, w) {
        AddActionsKnow(u, before, Processed(u, before, w), trxId);
        WindowBooks(u, before, w);
      }
      FindsMore(u, s, ws, trxId);
    }
  }

  lemma WindowBooks(u: EosSetup, s: SyncState, w: Window)
    requires Returned(u, s, w)
    ensures AfterWindow(u, s, w).received == AddActions(u, s, Processed(u, s, w)).received
    ensures AfterWindow(u, s, w).book == AddActions(u, s, Processed(u, s, w)).book
  {
  }

  lemma FindsMore(u: EosSetup, s: SyncState, ws: seq<Window>, trxId: string)
    requires ws != []
    ensures (exists k: nat :: FindsAt(u, s, ws, k, trxId))
            <==> || (var before := ws[..|ws| - 1]; exists k: nat :: FindsAt(u, s, before, k, trxId))
                 || FindsAt(u, s, ws, |ws| - 1, trxId)
  {
    FindsStill(u, s, ws, trxId);
    FindsBefore(u, s, ws, trxId);
  }

  lemma FindsStill(u: EosSetup, s: SyncState, ws: seq<Window>, trxId: string)
    requires ws != []
    ensures (var before := ws[..|ws| - 1]; exists k: nat :: FindsAt(u, s, before, k, trxId)) ==>
              exists k: nat :: FindsAt(u, s, ws, k, trxId)
  {
    var before := ws[..|ws| - 1];
    if k: nat :| FindsAt(u, s, before, k, trxId) {
      FindsShorter(u, s, ws, |ws| - 1, k, trxId);
    }
  }

  lemma FindsBefore(u: EosSetup, s: SyncState, ws: seq<Window>, trxId: string)
    requires ws != []
    ensures (exists k: nat :: FindsAt(u, s, ws, k, trxId)) ==>
              || (var before := ws[..|ws| - 1]; exists k: nat :: FindsAt(u, s, before, k, trxId))
              || FindsAt(u, s, ws, |ws| - 1, trxId)
  {
    if k: nat :| FindsAt(u, s, ws, k, trxId) {
      if k < |ws| - 1 {
        FindsShorter(u, s, ws, |ws| - 1, k, trxId);
      }
    }
  }

  lemma FindsShorter(u: EosSetup, s: SyncState, ws: seq<Window>, n: nat, k: nat, trxId: string)
    requires k < n <= |ws|
    ensures FindsAt(u, s, ws[..n], k, trxId) == FindsAt(u, s, ws, k, trxId)
  {
    assert ws[..n][..k] == ws[..k];
  }

  // ---- deposits that are lost

  /** The transaction has two actions in the history, of which the second is a deposit and the first is not. */
  ghost predicate SecondIsDeposit(u: EosSetup, i: nat, j: nat, trxId: string)
  {
    && i < j < |u.history|
    && (forall h :: 0 <= h < |u.history| ==> (u.history[h].trxId == trxId <==> h == i || h == j))
    && u.DepositIn(u.history[i]).None? && u.DepositIn(u.history[j]).Some?
  }

  /** Window `k` begins after the first action and no later than the second. */
  ghost predicate BeginsBetween(u: EosSetup, s: SyncState, ws: seq<Window>, k: nat, i: nat, j: nat)
  {
    k < |ws| && i < Cursor(Windows(u, s, ws[..k])) <= j
  }

  /** Whatever windows are returned and whichever fail: once the cursor is past such a deposit, it has been
      credited if and only if some window began between the two actions. */
  lemma CreditedExactlyBetween(u: EosSetup, s: SyncState, ws: seq<Window>, i: nat, j: nat, trxId: string)
    requires Balanced(s.book) && SecondIsDeposit(u, i, j, trxId) && !Known(s.received, u.coin.name, trxId)
    requires 0 <= Cursor(s) <= |u.history| && j < Cursor(Windows(u, s, ws))
    ensures Known(Windows(u, s, ws).received, u.coin.name, trxId) <==>
              exists k: nat :: BeginsBetween(u, s, ws, k, i, j)
  {
    CreditedOnlyBetween(u, s, ws, i, j, trxId);
    if k: nat :| BeginsBetween(u, s, ws, k, i, j) {
      var m := CrossingWindow(u, s, ws, k, j);
      assert ws[..m][..k] == ws[..k];
      CursorGrows(u, s, ws[..m], k);
      assert BeginsBetween(u, s, ws, m, i, j);
      CreditedBetween(u, s, ws, i, j, trxId, m);
    }
  }

  /** Window `m` was processed completely and holds action `j`. */
  ghost predicate Crosses(u: EosSetup, s: SyncState, ws: seq<Window>, m: nat, j: nat)
  {
    && m < |ws| && ws[m].failedAfter.None?
    && var before := Windows(u, s, ws[..m]);
       Returned(u, before, ws[m]) && Cursor(before) <= j < Cursor(before) + ws[m].size
  }

  /** Between a cursor up to `j` and one past it there is such a window. */
  lemma {:induction false} CrossingWindow(u: EosSetup, s: SyncState, ws: seq<Window>, k: nat, j: nat) returns (m: nat)
    requires k <= |ws| && Cursor(Windows(u, s, ws[..k])) <= j < Cursor(Windows(u, s, ws))
    ensures k <= m && Crosses(u, s, ws, m, j)
  {
    var n := |ws| - 1;
    assert ws[..|ws|] == ws;
    assert ws[..n][..k] == ws[..k];
    var before := Windows(u, s, ws[..n]);
    if j < Cursor(before) {
      m := CrossingWindow(u, s, ws[..n], k, j);
      assert ws[..n][..m] == ws[..m];
    } else {
      m := n;
      LastCrosses(u, s, ws, j);
    }
  }

  lemma LastCrosses(u: EosSetup, s: SyncState, ws: seq<Window>, j: nat)
    requires ws != [] && Cursor(Windows(u, s, ws[..|ws| - 1])) <= j < Cursor(Windows(u, s, ws))
    ensures Crosses(u, s, ws, |ws| - 1, j)
  {
    var before, w := Windows(u, s, ws[..|ws| - 1]), ws[|ws| - 1];
    if Returned(u, before, w) {
      CursorMoves(u, before, w);
    }
  }

  lemma {:induction false} CursorGrows(u: EosSetup, s: SyncState, ws: seq<Window>, k: nat)
    requires k <= |ws|
    ensures Cursor(Windows(u, s, ws[..k])) <= Cursor(Windows(u, s, ws))
  {
    if k == |ws| {
      assert ws[..k] == ws;
    } else {
      var n := |ws| - 1;
      assert ws[..n][..k] == ws[..k];
      CursorGrows(u, s, ws[..n], k);
      if Returned(u, Windows(u, s, ws[..n]), ws[n]) {
        CursorMoves(u, Windows(u, s, ws[..n]), ws[n]);
      }
    }
  }

  lemma CreditedOnlyBetween(u: EosSetup, s: SyncState, ws: seq<Window>, i: nat, j: nat, trxId: string)
    requires Balanced(s.book) && SecondIsDeposit(u, i, j, trxId) && !Known(s.received, u.coin.name, trxId)
    ensures Known(Windows(u, s, ws).received, u.coin.name, trxId) ==>
              exists k: nat :: BeginsBetween(u, s, ws, k, i, j)
  {
    RecordsExactly(u, s, ws, trxId);
    if k: nat :| FindsAt(u, s, ws, k, trxId) {
      FoundOnlyBetween(u, Windows(u, s, ws[..k]), ws[k], i, j, trxId);
      assert BeginsBetween(u, s, ws, k, i, j);
    }
  }

  /** A window that begins elsewhere finds no deposit of the transaction. */
  lemma FoundOnlyBetween(u: EosSetup, s: SyncState, w: Window, i: nat, j: nat, trxId: string)
    requires Returned(u, s, w) && SecondIsDeposit(u, i, j, trxId)
    ensures Holds(u, Processed(u, s, w), trxId) ==> i < Cursor(s) <= j
  {
    var list, c := Actions(u, s, w), Cursor(s);
    if c <= i || j < c {
      forall a | a in Processed(u, s, w) && a.trxId == trxId ensures u.DepositIn(a).None? {
        assert a in FirstOccurrences(list);
        var m := FirstOfItsKind(list, a);
        assert u.history[c + m] == a;
        if c <= i < c + |list| {
          assert list[i - c] == u.history[i];
        }
      }
    }
  }

  /** A window that begins between them and is processed up to the second credits it. */
  lemma CreditedBetween(u: EosSetup, s: SyncState, ws: seq<Window>, i: nat, j: nat, trxId: string, k: nat)
    requires Balanced(s.book) && SecondIsDeposit(u, i, j, trxId)
    requires BeginsBetween(u, s, ws, k, i, j) && Crosses(u, s, ws, k, j)
    ensures Known(Windows(u, s, ws).received, u.coin.name, trxId)
  {
    var before := Windows(u, s, ws[..k]);
    SecondSurvives(u, before, ws[k], i, j, trxId);
    assert FindsAt(u, s, ws, k, trxId);
    RecordsExactly(u, s, ws, trxId);
  }

  lemma SecondSurvives(u: EosSetup, s: SyncState, w: Window, i: nat, j: nat, trxId: string)
    requires w.failedAfter.None? && SecondIsDeposit(u, i, j, trxId)
    requires i < Cursor(s) <= j < Cursor(s) + w.size <= |u.history|
    ensures Holds(u, Processed(u, s, w), trxId)
  {
    var list, m := Actions(u, s, w), j - Cursor(s);
    forall h | 0 <= h < m ensures list[h].trxId != trxId {
      assert list[h] == u.history[Cursor(s) + h];
    }
    OccursBefore(list, m, trxId);
    assert FirstAt(list, m, u.history[j]);
    SurvivesExactly(list, u.history[j]);
  }
}
