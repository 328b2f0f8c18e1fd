/** All deposit synchronisations together: the services of several coins share the table of received
    transactions and the ledger, on which other services go on working between their runs. */
module SyncEvents {
  import opened Deposits
  import opened EosDeposits
  import opened EosRuns
  import opened Ledgers
  import opened Sums
  import opened SyncRuns

  /** The synchronised block chains and EOS accounts. */
  datatype System = System(chains: seq<Setup>, accounts: seq<EosSetup>)

  /** Cursors of the chains and of the accounts, where each chain's synchronisation began, the shared
      tables, and what has moved money so far. */
  datatype Joint = Joint(cursors: seq<Option<int>>, origins: seq<Option<int>>, windows: seq<Option<int>>,
                         received: seq<Received>, book: Book, history: seq<Entry>)

  /** A run of a chain's synchronisation, a window of an account, or a call of any other service. */
  datatype Event = ChainRun(i: nat, run: Run) | AccountWindow(i: nat, w: Window) | OtherCall(call: Call)

  /** What one chain or account sees. */
  function View(j: Joint, cursor: Option<int>): SyncState
  {
    SyncState(cursor, j.received, j.book)
  }

  predicate WellFormed(y: System, j: Joint)
  {
    |j.cursors| == |j.origins| == |y.chains| && |j.windows| == |y.accounts|
  }

  /** The tables after a run or a window that led to `after`. */
  function Shared(j: Joint, after: SyncState): Joint
  {
    if |j.received| <= |after.received| then
      j.(received := after.received, book := after.book, history := Grown(j.history, j.received, after.received))
    else j
  }

  /** Events that cannot happen, and calls that the ledger refuses, change nothing. */
  function Step(y: System, j: Joint, e: Event): Joint
    requires WellFormed(y, j)
  {
    match e
    case ChainRun(i, run) =>
      if i >= |y.chains| || !Possible(y.chains[i], View(j, j.cursors[i]), run) then j
      else
        var s := View(j, j.cursors[i]);
        var after := After(y.chains[i], s, run);
        var began := if j.origins[i].None? && run.saved then Some(LastSynced(s, run.head)) else j.origins[i];
        Shared(j, after).(cursors := j.cursors[i := after.cursor], origins := j.origins[i := began])
    case AccountWindow(i, w) =>
      if i >= |y.accounts| || !Returned(y.accounts[i], View(j, j.windows[i]), w) then j
      else
        var after := AfterWindow(y.accounts[i], View(j, j.windows[i]), w);
        Shared(j, after).(windows := j.windows[i := after.cursor])
    case OtherCall(call) =>
      match Post(j.book, call)
      case None => j
      case Some(book) => j.(book := book, history := j.history + [Other(call)])
  }

  lemma StepWellFormed(y: System, j: Joint, e: Event)
    requires WellFormed(y, j)
    ensures WellFormed(y, Step(y, j, e))
  {
  }

  function RunAll(y: System, j: Joint, events: seq<Event>): (after: Joint)
    requires WellFormed(y, j)
    ensures WellFormed(y, after)
  {
    if events == [] then j else
      var before := RunAll(y, j, events[..|events| - 1]);
      StepWellFormed(y, before, events[|events| - 1]);
      Step(y, before, events[|events| - 1])
  }

  // ---- what holds after every sequence of events

  /** A record is the deposit that its transaction makes on one of the chains or to one of the accounts. */
  ghost predicate MadeBySome(y: System, r: Received)
  {
    || (exists i :: 0 <= i < |y.chains| && y.chains[i].DepositIn(r.txid) == Some(r.payment))
    || (exists i :: 0 <= i < |y.accounts| && MadeBy(y.accounts[i], r))
  }

  /** The deposits of chain `i` between where it began and its cursor are on record. */
  ghost predicate Covered(y: System, j: Joint, i: nat)
    requires WellFormed(y, j) && i < |y.chains|
  {
    && (j.cursors[i].Some? <==> j.origins[i].Some?)
    && (j.cursors[i].Some? ==>
          CoversBlocks(y.chains[i], View(j, j.cursors[i]), j.origins[i].value, j.cursors[i].value))
  }

  ghost predicate Exact(y: System, j: Joint, start: Book)
  {
    && WellFormed(y, j)
    && CreditedOnce(j.received, j.book, start, j.history)
    && (forall r :: r in j.received ==> MadeBySome(y, r))
    && (forall i :: 0 <= i < |y.chains| ==> Covered(y, j, i))
  }

  ghost predicate Sane(y: System)
  {
    forall i :: 0 <= i < |y.chains| ==> y.chains[i].Sane()
  }

  /** Every balanced ledger without records is a start, wherever the saved cursors are. */
  lemma StartsExact(y: System, j: Joint)
    requires WellFormed(y, j) && Balanced(j.book) && j.received == [] && j.history == [] && j.origins == j.cursors
    ensures Exact(y, j, j.book)
  {
  }

  /** What is on record stays so, whoever adds to the records. */
  lemma StaysCovered(y: System, j: Joint, next: Joint, i: nat)
    requires WellFormed(y, j) && WellFormed(y, next) && i < |y.chains| && Covered(y, j, i)
    requires j.received <= next.received && next.cursors[i] == j.cursors[i] && next.origins[i] == j.origins[i]
    ensures Covered(y, next, i)
  {
    if j.cursors[i].Some? {
      var u, s, after := y.chains[i], View(j, j.cursors[i]), View(next, next.cursors[i]);
      forall h, n | j.origins[i].value < h <= j.cursors[i].value && 0 <= h < |u.blocks| && 0 <= n < |u.blocks[h]|
        ensures OnRecord(u, after, u.blocks[h][n])
      {
        StaysOnRecord(u, s, after, u.blocks[h][n]);
      }
    }
  }

  lemma ChainRunKeeps(y: System, j: Joint, i: nat, run: Run, start: Book)
    requires Sane(y) && Exact(y, j, start)
    requires i < |y.chains| && Possible(y.chains[i], View(j, j.cursors[i]), run)
    ensures Exact(y, Step(y, j, ChainRun(i, run)), start)
    ensures j.received <= Step(y, j, ChainRun(i, run)).received
  {
    var u, s := y.chains[i], View(j, j.cursors[i]);
    var after, next := After(u, s, run), Step(y, j, ChainRun(i, run));
    assert Covered(y, j, i);
    OneRun(u, s, run, start, j.history, if s.cursor.Some? then j.origins[i].value else LastSynced(s, run.head));
    NewRecordsMade(y, j, next, i);
    forall k | 0 <= k < |y.chains| ensures Covered(y, next, k) {
      if k != i {
        StaysCovered(y, j, next, k);
      } else if !run.saved {
        StaysCovered(y, j, next, k);
      } else {
        SameRecords(u, after, View(next, next.cursors[i]), next.origins[i].value, next.cursors[i].value);
      }
    }
  }

  lemma SameRecords(u: Setup, s: SyncState, after: SyncState, from: int, to: int)
    requires CoversBlocks(u, s, from, to) && s.received == after.received
    ensures CoversBlocks(u, after, from, to)
  {
    forall h, n | from < h <= to && 0 <= h < |u.blocks| && 0 <= n < |u.blocks[h]|
      ensures OnRecord(u, after, u.blocks[h][n])
    {
      StaysOnRecord(u, s, after, u.blocks[h][n]);
    }
  }

  lemma NewRecordsMade(y: System, j: Joint, next: Joint, i: nat)
    requires i < |y.chains| && j.received <= next.received && forall r :: r in j.received ==> MadeBySome(y, r)
    requires forall k :: |j.received| <= k < |next.received| ==>
               y.chains[i].DepositIn(next.received[k].txid) == Some(next.received[k].payment)
    ensures forall r :: r in next.received ==> MadeBySome(y, r)
  {
    forall r | r in next.received ensures MadeBySome(y, r) {
      var k :| 0 <= k < |next.received| && next.received[k] == r;
      if k < |j.received| {
        assert j.received[k] == r;
      }
    }
  }

  lemma WindowKeeps(y: System, j: Joint, i: nat, w: Window, start: Book)
    requires Exact(y, j, start)
    requires i < |y.accounts| && Returned(y.accounts[i], View(j, j.windows[i]), w)
    ensures Exact(y, Step(y, j, AccountWindow(i, w)), start)
    ensures j.received <= Step(y, j, AccountWindow(i, w)).received
  {
    var next := Step(y, j, AccountWindow(i, w));
    WindowSound(y.accounts[i], View(j, j.windows[i]), w, start, j.history);
    forall r | r in next.received ensures MadeBySome(y, r) {
      var k :| 0 <= k < |next.received| && next.received[k] == r;
      if k < |j.received| {
        assert j.received[k] == r;
      }
    }
    forall k | 0 <= k < |y.chains| ensures Covered(y, next, k) {
      StaysCovered(y, j, next, k);
    }
  }

  lemma OtherCallKeeps(y: System, j: Joint, call: Call, start: Book)
    requires Exact(y, j, start)
    ensures Exact(y, Step(y, j, OtherCall(call)), start)
    ensures j.received == Step(y, j, OtherCall(call)).received
  {
    var next := Step(y, j, OtherCall(call));
    if Post(j.book, call).Some? {
      OtherKeepsCredited(j.received, j.book, start, j.history, call);
      forall k | 0 <= k < |y.chains| ensures Covered(y, next, k) {
        StaysCovered(y, j, next, k);
      }
    }
  }

  /** Deposits are credited exactly once: whatever runs and windows of whichever services failed when, and
      whatever else was done on the ledger between them, each (coin, txid) is recorded at most once, the
      books are those of one credit per record and of the other calls, in the order in which they came,
      and on every chain the deposits of all blocks from where it began up to its saved cursor have been
      recorded. */
  lemma {:induction false} ExactlyOnce(y: System, j: Joint, events: seq<Event>, start: Book)
    requires Sane(y) && Exact(y, j, start)
    ensures Exact(y, RunAll(y, j, events), start) && j.received <= RunAll(y, j, events).received
  {
    if events != [] {
      var before, e := RunAll(y, j, events[..|events| - 1]), events[|events| - 1];
      ExactlyOnce(y, j, events[..|events| - 1], start);
      match e
      case ChainRun(i, run) =>
        if i < |y.chains| && Possible(y.chains[i], View(before, before.cursors[i]), run) {
          ChainRunKeeps(y, before, i, run, start);
        }
      case AccountWindow(i, w) =>
        if i < |y.accounts| && Returned(y.accounts[i], View(before, before.windows[i]), w) {
          WindowKeeps(y, before, i, w, start);
        }
      case OtherCall(call) => OtherCallKeeps(y, before, call, start);
    }
  }

  /** The other services' calls that the ledger took during the events, in order. */
  function Accepted(y: System, j: Joint, events: seq<Event>): seq<Call>
    requires WellFormed(y, j)
  {
    if events == [] then [] else
      var before, e := RunAll(y, j, events[..|events| - 1]), events[|events| - 1];
      Accepted(y, j, events[..|events| - 1]) + if e.OtherCall? && Post(before.book, e.call).Some? then [e.call] else []
  }

  function OthersOf(history: seq<Entry>): seq<Call>
  {
    if history == [] then [] else
      var last := history[|history| - 1];
      OthersOf(history[..|history| - 1]) + if last.Other? then [last.call] else []
  }

  lemma {:induction false} OthersOfDeposits(history: seq<Entry>, more: seq<Entry>)
    requires forall i :: 0 <= i < |more| ==> more[i].Deposit?
    ensures OthersOf(history + more) == OthersOf(history)
  {
    if more == [] {
      assert history + more == history;
    } else {
      var n := |more| - 1;
      assert (history + more)[..|history + more| - 1] == history + more[..n];
      OthersOfDeposits(history, more[..n]);
    }
  }

  lemma GrownKeepsOthers(history: seq<Entry>, received: seq<Received>, after: seq<Received>)
    requires |received| <= |after|
    ensures OthersOf(Grown(history, received, after)) == OthersOf(history)
  {
    OthersOfDeposits(history, Grown(history, received, after)[|history|..]);
    assert Grown(history, received, after) == history + Grown(history, received, after)[|history|..];
  }

  /** Apart from the credits, the history holds exactly those calls: nothing else moves money. */
  lemma {:induction false} NothingElseMoves(y: System, j: Joint, events: seq<Event>)
    requires WellFormed(y, j)
    ensures OthersOf(RunAll(y, j, events).history) == OthersOf(j.history) + Accepted(y, j, events)
  {
    if events != [] {
      var before, e := RunAll(y, j, events[..|events| - 1]), events[|events| - 1];
      NothingElseMoves(y, j, events[..|events| - 1]);
      StepOthers(y, before, e);
    }
  }

  lemma StepOthers(y: System, j: Joint, e: Event)
    requires WellFormed(y, j)
    ensures OthersOf(Step(y, j, e).history)
         == OthersOf(j.history) + if e.OtherCall? && Post(j.book, e.call).Some? then [e.call] else []
  {
    var next := Step(y, j, e);
    if e.OtherCall? {
      assert (j.history + [Other(e.call)])[..|j.history|] == j.history;
    } else if next.history != j.history {
      GrownKeepsOthers(j.history, j.received, next.received);
    }
  }
}
