/** StatService.statNodes: node counts kept up to date one registration at a time, by a queue of tasks
    that registrations extend while it is being worked off. */
module NodeStats {
  import opened Referral
  import opened Settlement
  import opened Sums

  /** The node columns of t_user_stat. */
  datatype UserStat = UserStat(leftNodes: int, rightNodes: int)

  /** The tables, and what happened so far: who was counted, and which tasks broke off half-way. */
  datatype Queue = Queue(users: Users, counts: map<int, UserStat>, tasks: seq<int>, counted: set<int>, broken: seq<int>)

  /** A registration, or an attempt at one of the queued tasks. */
  datatype Event = Registration(id: int, row: User) | Task(index: nat)

  const EMPTY := Queue(map[], map[], [], {}, [])

  function NodesOn(stat: UserStat, s: Side): int
  {
    if s.Left? then stat.leftNodes else stat.rightNodes
  }

  function OneMore(stat: UserStat, s: Side): UserStat
  {
    if s.Left? then stat.(leftNodes := stat.leftNodes + 1) else stat.(rightNodes := stat.rightNodes + 1)
  }

  predicate Rooted(users: Users)
  {
    forall v :: v in users && users[v].referrer.Some? ==> users[v].referrer.value in users
  }

  // ---- one task

  /** One more node for everybody above `y`, up to the first edge without a side. */
  ghost function Raise(users: Users, counts: map<int, UserStat>, y: int): map<int, UserStat>
    requires Forest(users)
    decreases y
  {
    if !HasParent(users, y) || SideOf(users, y).None? || ParentOf(users, y) !in counts then counts else
      var p := ParentOf(users, y);
      Raise(users, counts[p := OneMore(counts[p], SideOf(users, y).value)], p)
  }

  /** `y` lies under `u`, and every edge from `y` up to `u` has a side. */
  ghost predicate Reaches(users: Users, y: int, u: int, s: Side)
    requires Forest(users)
    decreases y
  {
    && HasParent(users, y) && SideOf(users, y).Some?
    && (|| (ParentOf(users, y) == u && SideOf(users, y) == Some(s))
        || Reaches(users, ParentOf(users, y), u, s))
  }

  ghost function ReachedFrom(users: Users, u: int, s: Side): int -> int
    requires Forest(users)
  {
    y => if Forest(users) && Reaches(users, y, u, s) then 1 else 0
  }

  lemma {:induction false} ReachesIsUnder(users: Users, y: int, u: int, s: Side)
    requires Forest(users)
    ensures Reaches(users, y, u, s) ==> Under(users, y, u, s)
    ensures ChainDefined(users, y) ==> (Reaches(users, y, u, s) <==> Under(users, y, u, s))
    decreases y
  {
    if HasParent(users, y) {
      ReachesIsUnder(users, ParentOf(users, y), u, s);
    }
  }

  /** A task adds one node to exactly the cells that its user reaches, whether it gets through or not. */
  lemma {:induction false} RaiseAddsOne(users: Users, counts: map<int, UserStat>, y: int, u: int, s: Side)
    requires Forest(users) && counts.Keys == users.Keys && u in users
    ensures Raise(users, counts, y).Keys == users.Keys
    ensures NodesOn(Raise(users, counts, y)[u], s) == NodesOn(counts[u], s) + ReachedFrom(users, u, s)(y)
    decreases y
  {
    if HasParent(users, y) && SideOf(users, y).Some? {
      var p := ParentOf(users, y);
      RaiseAddsOne(users, counts[p := OneMore(counts[p], SideOf(users, y).value)], p, u, s);
      ReachesIsUnder(users, p, u, s);
      NotUnderItself(users, p);
    }
  }

  // ---- registrations and tasks in any order

  predicate MayRegister(users: Users, id: int, row: User)
  {
    && 0 < id && (forall v :: v in users ==> v < id)
    && (row.referrer.Some? ==> row.referrer.value in users)
  }

  /** A registration writes the user, zeroed counts and a task. A task that gets through is deleted; one
      that breaks off leaves its increments and itself behind. */
  ghost function Step(q: Queue, e: Event): Queue
  {
    match e
    case Registration(id, row) =>
      if !MayRegister(q.users, id, row) then q
      else q.(users := q.users[id := row], counts := q.counts[id := UserStat(0, 0)], tasks := q.tasks + [id])
    case Task(i) =>
      if i >= |q.tasks| || !Forest(q.users) then q
      else
        var y := q.tasks[i];
        var raised := q.(counts := Raise(q.users, q.counts, y));
        if ChainDefined(q.users, y) then
          raised.(tasks := q.tasks[..i] + q.tasks[i + 1..], counted := q.counted + {y})
        else raised.(broken := q.broken + [y])
  }

  ghost function Run(q: Queue, events: seq<Event>): Queue
  {
    if events == [] then q else Step(Run(q, events[..|events| - 1]), events[|events| - 1])
  }

  /** As many attempts, each at the first task of the queue. */
  function FirstTasks(n: nat): seq<Event>
  {
    seq(n, _ => Task(0))
  }

  /** Every count is the number of counted users on that side, and one more for each broken attempt
      that reached it. */
  ghost predicate Counts(q: Queue)
    requires Forest(q.users)
  {
    && q.counts.Keys == q.users.Keys
    && forall u, s :: u in q.counts ==>
         NodesOn(q.counts[u], s)
         == Partial(q.users, map[], q.counted, u, s, Nodes) + SeqSum(q.broken, ReachedFrom(q.users, u, s))
  }

  /** Each user is counted or queued, and exactly once; attempts break only at queued users above whom
      an edge has no side. */
  ghost predicate Tracked(q: Queue)
    requires Forest(q.users)
  {
    && (forall u :: u in q.users <==> u in q.counted || u in q.tasks)
    && (forall i :: 0 <= i < |q.tasks| ==> q.tasks[i] !in q.counted)
    && (forall i, j :: 0 <= i < j < |q.tasks| ==> q.tasks[i] != q.tasks[j])
    && (forall y :: y in q.broken ==> y in q.tasks && !ChainDefined(q.users, y))
    && (forall y :: y in q.counted ==> ChainDefined(q.users, y))
  }

  ghost predicate Sound(q: Queue)
  {
    Forest(q.users) && Rooted(q.users) && Counts(q) && Tracked(q)
  }

  lemma {:induction false} RegistrationKeepsChain(users: Users, id: int, row: User, y: int, u: int, s: Side)
    requires Forest(users) && Rooted(users) && MayRegister(users, id, row) && y in users
    requires Forest(users[id := row])
    ensures ChainDefined(users[id := row], y) == ChainDefined(users, y)
    ensures Reaches(users[id := row], y, u, s) == Reaches(users, y, u, s)
    decreases y
  {
    if HasParent(users, y) {
      RegistrationKeepsChain(users, id, row, ParentOf(users, y), u, s);
    }
  }

  /** A registration leaves every cell as it was, and nobody lies below the new user. */
  lemma RegistrationKeepsCell(q: Queue, id: int, row: User, u: int, s: Side)
    requires Sound(q) && MayRegister(q.users, id, row) && (u in q.users || u == id)
    requires Forest(q.users[id := row])
    ensures var after := q.users[id := row];
            && Partial(after, map[], q.counted, u, s, Nodes)
               == (if u == id then 0 else Partial(q.users, map[], q.counted, u, s, Nodes))
            && SeqSum(q.broken, ReachedFrom(after, u, s))
               == (if u == id then 0 else SeqSum(q.broken, ReachedFrom(q.users, u, s)))
  {
    var after := q.users[id := row];
    forall y | y in q.users
      ensures Under(after, y, u, s) == (u != id && Under(q.users, y, u, s))
      ensures Reaches(after, y, u, s) == (u != id && Reaches(q.users, y, u, s))
    {
      RegisteringKeepsPlaces(q.users, id, row, y, u, s);
      RegistrationKeepsChain(q.users, id, row, y, u, s);
      ReachesIsUnder(q.users, y, u, s);
      if Under(q.users, y, u, s) {
        UnderIsBelow(q.users, y, u, s);
      }
    }
    if u == id {
      assert Below(after, u, s) * q.counted == {};
      SeqSumSame(q.broken, ReachedFrom(after, u, s), _ => 0);
      SumOfNothing(q.broken);
    } else {
      assert Below(after, u, s) * q.counted == Below(q.users, u, s) * q.counted;
      SeqSumSame(q.broken, ReachedFrom(after, u, s), ReachedFrom(q.users, u, s));
    }
  }

  lemma {:induction false} SumOfNothing(s: seq<int>)
    ensures SeqSum(s, _ => 0) == 0
  {
    if s != [] {
      SumOfNothing(s[..|s| - 1]);
    }
  }

  lemma RegistrationKeepsSound(q: Queue, id: int, row: User)
    requires Sound(q) && MayRegister(q.users, id, row)
    ensures Sound(Step(q, Registration(id, row)))
  {
    var after := Step(q, Registration(id, row));
    forall u, s | u in after.counts
      ensures NodesOn(after.counts[u], s)
           == Partial(after.users, map[], q.counted, u, s, Nodes) + SeqSum(q.broken, ReachedFrom(after.users, u, s))
    {
      RegistrationKeepsCell(q, id, row, u, s);
    }
    forall y | y in q.users ensures ChainDefined(after.users, y) == ChainDefined(q.users, y) {
      RegistrationKeepsChain(q.users, id, row, y, y, Left);
    }
  }

  lemma TaskKeepsCounts(q: Queue, i: nat)
    requires Sound(q) && i < |q.tasks|
    ensures Counts(Step(q, Task(i)))
  {
    var after, y := Step(q, Task(i)), q.tasks[i];
    forall u, s | u in q.counts
      ensures u in after.counts
      ensures NodesOn(after.counts[u], s)
           == Partial(q.users, map[], after.counted, u, s, Nodes) + SeqSum(after.broken, ReachedFrom(q.users, u, s))
    {
      RaiseAddsOne(q.users, q.counts, y, u, s);
      ReachesIsUnder(q.users, y, u, s);
      if ChainDefined(q.users, y) {
        CountOneMore(q.users, map[], q.counted, y, u, s, Nodes);
      } else {
        SeqSumAppend(q.broken, y, ReachedFrom(q.users, u, s));
      }
    }
    RaiseAddsOne(q.users, q.counts, y, y, Left);
  }

  /** Deleting one of several different tasks leaves the others, still different. */
  lemma Deleting(tasks: seq<int>, i: nat)
    requires i < |tasks| && forall k, l :: 0 <= k < l < |tasks| ==> tasks[k] != tasks[l]
    ensures var left := tasks[..i] + tasks[i + 1..];
            && (forall k, l :: 0 <= k < l < |left| ==> left[k] != left[l])
            && forall u :: u in left <==> u in tasks && u != tasks[i]
  {
    var left := tasks[..i] + tasks[i + 1..];
    forall u ensures u in left <==> u in tasks && u != tasks[i] {
      if u in tasks && u != tasks[i] {
        var k :| 0 <= k < |tasks| && tasks[k] == u;
        assert left[if k < i then k else k - 1] == u;
      }
    }
  }

  lemma TaskKeepsTracked(q: Queue, i: nat)
    requires Sound(q) && i < |q.tasks|
    ensures Tracked(Step(q, Task(i)))
  {
    var after, y := Step(q, Task(i)), q.tasks[i];
    if ChainDefined(q.users, y) {
      Deleting(q.tasks, i);
      forall k | 0 <= k < |after.tasks| ensures after.tasks[k] !in after.counted {
        var u := after.tasks[k];
        assert u in after.tasks && u in q.tasks && u != y;
      }
    }
  }

  /** Neither a registration nor a task, whether it gets through or breaks off, disturbs the counts. */
  lemma StepKeepsSound(q: Queue, e: Event)
    requires Sound(q)
    ensures Sound(Step(q, e))
  {
    match e
    case Registration(id, row) =>
      if MayRegister(q.users, id, row) {
        RegistrationKeepsSound(q, id, row);
      }
    case Task(i) =>
      if i < |q.tasks| {
        TaskKeepsCounts(q, i);
        TaskKeepsTracked(q, i);
      }
  }

  /** So over every interleaving of registrations with tasks, done in any order. */
  lemma {:induction false} RunKeepsSound(q: Queue, events: seq<Event>)
    requires Sound(q)
    ensures Sound(Run(q, events))
  {
    if events != [] {
      RunKeepsSound(q, events[..|events| - 1]);
      StepKeepsSound(Run(q, events[..|events| - 1]), events[|events| - 1]);
    }
  }

  /** After every interleaving that leaves the queue empty, the counts that were maintained one
      registration at a time are the ones that the settlement recomputes from the leaves. */
  lemma EveryInterleavingAgrees(events: seq<Event>, settled: RewardStat, u: int)
    requires Run(EMPTY, events).tasks == [] && settled.users == Run(EMPTY, events).users
    requires settled.Complete() && u in settled.users
    ensures var q := Run(EMPTY, events);
            && u in q.counts
            && q.counts[u] == UserStat(settled.redis[u].leftNodes, settled.redis[u].rightNodes)
            && q.counts[u] == UserStat(|Below(q.users, u, Left)|, |Below(q.users, u, Right)|)
  {
    assert Sound(EMPTY);
    RunKeepsSound(EMPTY, events);
    QueueAgreesWithSettlement(Run(EMPTY, events), settled, u);
  }

  lemma NonEmptyTogether(part: seq<int>, whole: seq<int>)
    requires forall y :: y in part ==> y in whole
    ensures part != [] ==> whole != []
  {
    if part != [] {
      var y := part[0];
      assert y in part && y in whole;
    }
  }

  lemma QueueAgreesWithSettlement(q: Queue, settled: RewardStat, u: int)
    requires Sound(q) && q.tasks == []
    requires settled.Complete() && settled.users == q.users && u in q.users
    ensures q.counts[u] == UserStat(settled.redis[u].leftNodes, settled.redis[u].rightNodes)
    ensures q.counts[u] == UserStat(|Below(q.users, u, Left)|, |Below(q.users, u, Right)|)
  {
    NonEmptyTogether(q.broken, q.tasks);
    assert forall v :: v in q.users <==> v in q.counted;
    forall s
      ensures NodesOn(q.counts[u], s) == Cell(settled.redis[u], s, Nodes) == |Below(q.users, u, s)|
    {
      CountedAll(q.users, map[], q.counted, u, s, Nodes);
      SetSumSame(Below(q.users, u, s), Weight(map[], Nodes), Weight(settled.mined, Nodes));
      SumOfOnes(Below(q.users, u, s), Weight(map[], Nodes));
    }
    assert NodesOn(q.counts[u], Left) == Cell(settled.redis[u], Left, Nodes) == |Below(q.users, u, Left)|;
    assert NodesOn(q.counts[u], Right) == Cell(settled.redis[u], Right, Nodes) == |Below(q.users, u, Right)|;
  }

  lemma {:induction false} SumOfOnes(s: set<int>, f: int -> int)
    requires forall x :: f(x) == 1
    ensures SetSum(s, f) == |s|
    decreases |s|
  {
    if s != {} {
      var x := AnyOf(s);
      SetSumSplit(s, x, f);
      SumOfOnes(s - {x}, f);
    }
  }

  /** A task above which an edge has no side never leaves the queue, whatever else happens, and every
      attempt at it raises the cells it reaches once more. */
  lemma {:induction false} BrokenTaskStays(q: Queue, events: seq<Event>, y: int)
    requires Sound(q) && y in q.tasks && !ChainDefined(q.users, y)
    ensures var after := Run(q, events);
            && Forest(after.users) && y in after.users
            && y in after.tasks && !ChainDefined(after.users, y)
  {
    RunKeepsSound(q, events);
    if events != [] {
      var before, e := Run(q, events[..|events| - 1]), events[|events| - 1];
      RunKeepsSound(q, events[..|events| - 1]);
      BrokenTaskStays(q, events[..|events| - 1], y);
      if e.Registration? && MayRegister(before.users, e.id, e.row) {
        RegistrationKeepsChain(before.users, e.id, e.row, y, y, Left);
      } else if e.Task? && e.index < |before.tasks| {
        StepKeepsSound(before, e);
        assert y !in before.counted;
      }
    }
  }

  // ---- what registration writes today

  /** The row that `register` writes for a user invited by `inviter`: inviter and referrer are the same,
      and the right code, whose generation is commented out, is null. */
  function RegisteredRow(inviter: int, inviteCode: string): User
  {
    User(Some(inviter), Some(inviter), Some(inviteCode), None)
  }

  /** The user's row is one that registration wrote. */
  predicate WrittenByRegistration(users: Users, u: int)
  {
    u in users && users[u].referrer.Some? && users[u].inviteCode.Some?
    && users[u] == RegisteredRow(users[u].referrer.value, users[u].inviteCode.value)
  }

  /** A registered user whose inviter was registered too has no side. */
  lemma RegisteredBelowRegistered(users: Users, u: int)
    requires HasParent(users, u) && WrittenByRegistration(users, u)
    requires WrittenByRegistration(users, ParentOf(users, u))
    ensures SideOf(users, u) == None
    ensures !EdgesDefined(users) && (Forest(users) ==> !ChainDefined(users, u))
  {
  }

  /** Once one registered user has invited another, the settlement breaks off and the second user's
      task can never be done. */
  lemma SecondInvitationBreaks(q: Queue, inviter: int, first: int, second: int, code1: string, code2: string,
                               events: seq<Event>)
    requires Sound(q) && inviter in q.users
    requires 0 < first < second && forall v :: v in q.users ==> v < first
    ensures var both := [Registration(first, RegisteredRow(inviter, code1)),
                         Registration(second, RegisteredRow(first, code2))];
            var after := Run(Run(q, both), events);
            !EdgesDefined(Run(q, both).users) && second in after.tasks
  {
    var one := Registration(first, RegisteredRow(inviter, code1));
    var two := Registration(second, RegisteredRow(first, code2));
    var q1 := Step(q, one);
    var q2 := Step(q1, two);
    StepKeepsSound(q, one);
    StepKeepsSound(q1, two);
    assert [one, two][..1] == [one] && [one][..0] == [];
    assert Run(q, [one]) == Step(Run(q, []), one);
    assert Run(q, [one, two]) == q2;
    RegisteredBelowRegistered(q2.users, second);
    assert q2.tasks[|q1.tasks|] == second;
    BrokenTaskStays(q2, events, second);
  }

  /** Exactly: where every user below another was written by registration, all edges have a side if and
      only if all who invited anybody are users without an inviter who have a right code. */
  lemma SettlesExactlyWhen(users: Users)
    requires forall u :: HasParent(users, u) ==> WrittenByRegistration(users, u)
    ensures EdgesDefined(users) <==>
            forall u :: HasParent(users, u) ==>
              !HasParent(users, ParentOf(users, u)) && users[ParentOf(users, u)].rightInvite.Some?
  {
    forall u | HasParent(users, u)
      ensures SideOf(users, u).Some? <==>
              !HasParent(users, ParentOf(users, u)) && users[ParentOf(users, u)].rightInvite.Some?
    {
      assert HasParent(users, ParentOf(users, u)) ==> WrittenByRegistration(users, ParentOf(users, u));
    }
  }

  // ---- the queue as it is worked off

  class NodeStat {
    var users: Users
    var tasks: seq<int>
    var counts: map<int, UserStat>
    ghost var counted: set<int>
    ghost var broken: seq<int>

    ghost function State(): Queue
      reads this
    {
      Queue(users, counts, tasks, counted, broken)
    }

    constructor ()
      ensures State() == EMPTY && Sound(State())
    {
      users, tasks, counts, counted, broken := map[], [], map[], {}, [];
    }

    /** The rows a registration writes: the user, zeroed counts, and a task that will count the user. */
    method Register(id: int, row: User)
      requires Sound(State()) && MayRegister(users, id, row)
      modifies this
      ensures Sound(State()) && State() == Step(old(State()), Registration(id, row))
    {
      RegistrationKeepsSound(State(), id, row);
      users := users[id := row];
      counts := counts[id := UserStat(0, 0)];
      tasks := tasks + [id];
    }

    /** register, as far as the referral tree is concerned: it refuses a code that nobody has, an inviter
        that was disabled and, by dereferencing null, an inviter without an inviter. The statistics row and
        the task, whose creation is commented out there, are created as well. */
    method RegisterInvited(id: int, inviteCode: string, inviter: Option<int>, disabled: bool) returns (ok: bool)
      requires Sound(State()) && 0 < id && forall v :: v in users ==> v < id
      requires inviter.Some? ==> inviter.value in users
      modifies this
      ensures ok <==> inviter.Some? && !disabled
                      && old(users)[inviter.value].invite.Some? && old(users)[inviter.value].invite.value in old(users)
      ensures Sound(State())
      ensures State() == if ok then Step(old(State()), Registration(id, RegisteredRow(inviter.value, inviteCode)))
                         else old(State())
    {
      if inviter.None? || disabled {
        return false;
      }
      var indirect := users[inviter.value].invite;
      if indirect.None? || indirect.value !in users {
        return false;
      }
      Register(id, RegisteredRow(inviter.value, inviteCode));
      ok := true;
    }

    /** The body of the loop of statNodes: one task. An exception leaves the task and its increments. */
    method StatNode() returns (ok: bool)
      requires Sound(State()) && tasks != []
      modifies this
      ensures Sound(State()) && State() == Step(old(State()), Task(0))
      ensures ok <==> ChainDefined(users, old(tasks)[0])
    {
      ghost var q := State();
      var y := tasks[0];
      assert y in tasks;
      ok := CountUp(y);
      if ok {
        assert tasks[..0] + tasks[1..] == tasks[1..];
        tasks := tasks[1..];
        counted := counted + {y};
      } else {
        broken := broken + [y];
      }
      assert State() == Step(q, Task(0));
      StepKeepsSound(q, Task(0));
    }

    /** statNodes: one task after the other until none is left or one breaks off. It works through the
        queue exactly when every edge above a queued user has a side. */
    method StatNodes() returns (ok: bool, ghost attempts: nat)
      requires Sound(State())
      modifies this
      ensures Sound(State()) && State() == Run(old(State()), FirstTasks(attempts))
      ensures ok <==> forall y :: y in old(tasks) ==> ChainDefined(users, y)
      ensures ok ==> tasks == [] && broken == old(broken) && attempts == |old(tasks)|
      ensures !ok ==> 0 < attempts <= |old(tasks)| && tasks == old(tasks)[attempts - 1..]
                      && broken == old(broken) + [tasks[0]]
    {
      attempts := 0;
      while tasks != []
        invariant Sound(State()) && State() == Run(old(State()), FirstTasks(attempts))
        invariant users == old(users) && broken == old(broken)
        invariant attempts <= |old(tasks)| && tasks == old(tasks)[attempts..]
        invariant forall i :: 0 <= i < attempts ==> ChainDefined(users, old(tasks)[i])
        decreases |tasks|
      {
        assert old(tasks)[attempts] == tasks[0];
        assert FirstTasks(attempts + 1)[..attempts] == FirstTasks(attempts);
        attempts := attempts + 1;
        ok := StatNode();
        if !ok {
          assert old(tasks)[attempts - 1] in old(tasks);
          return;
        }
      }
      ok := true;
    }

    /** The inner loop: one more node for everybody above `y`. */
    method CountUp(y: int) returns (ok: bool)
      requires Forest(users) && Rooted(users) && y in users && counts.Keys == users.Keys
      modifies this`counts
      ensures ok <==> ChainDefined(users, y)
      ensures counts == Raise(users, old(counts), y)
    {
      var referrer, invite, inviteCode := users[y].referrer, users[y].invite, users[y].inviteCode;
      ghost var at := y;
      while referrer.Some?
        invariant at in users && counts.Keys == users.Keys
        invariant referrer == users[at].referrer && invite == users[at].invite && inviteCode == users[at].inviteCode
        invariant Raise(users, counts, at) == Raise(users, old(counts), y)
        invariant ChainDefined(users, y) <==> ChainDefined(users, at)
        decreases at
      {
        var id := referrer.value;
        if invite.None? || (id == invite.value && users[id].rightInvite.None?) {
          return false;
        }
        if id == invite.value && SameCode(users[id].rightInvite.value, inviteCode) {
          counts := counts[id := counts[id].(rightNodes := counts[id].rightNodes + 1)];
        } else {
          counts := counts[id := counts[id].(leftNodes := counts[id].leftNodes + 1)];
        }
        referrer, invite, inviteCode := users[id].referrer, users[id].invite, users[id].inviteCode;
        at := id;
      }
      ok := true;
    }
  }

  /** With an empty queue the counts are those that the table shows: how many users hang on each side. */
  lemma CountsByTable(q: Queue, u: int)
    requires Sound(q) && q.tasks == [] && u in q.users
    ensures q.counts[u] == UserStat(|HangingOn(q.users, u, false)|, |HangingOn(q.users, u, true)|)
  {
    NonEmptyTogether(q.broken, q.tasks);
    assert forall v :: v in q.users <==> v in q.counted;
    forall y | HasParent(q.users, y) ensures SideOf(q.users, y).Some? {
      assert ChainDefined(q.users, y);
    }
    BelowByTable(q.users, u);
    forall s ensures NodesOn(q.counts[u], s) == |Below(q.users, u, s)| {
      CountedAll(q.users, map[], q.counted, u, s, Nodes);
      SumOfOnes(Below(q.users, u, s), Weight(map[], Nodes));
    }
    assert NodesOn(q.counts[u], Left) == |Below(q.users, u, Left)|;
    assert NodesOn(q.counts[u], Right) == |Below(q.users, u, Right)|;
  }
}
