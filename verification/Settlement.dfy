/** StatService.departMoney: the settlement that recomputes every user's subtree totals from the leaves. */
module Settlement {
  import opened Referral
  import opened Sums
  import opened Text

  /** The fields of a redis user row that the settlement updates. */
  datatype Totals = Totals(isStat: bool, leftNodes: int, rightNodes: int, leftMoneyAll: int, rightMoneyAll: int)

  const NOTHING := Totals(false, 0, 0, 0, 0)

  function Cell(t: Totals, s: Side, c: Column): int
  {
    match (s, c)
    case (Left, Nodes) => t.leftNodes
    case (Right, Nodes) => t.rightNodes
    case (Left, Money) => t.leftMoneyAll
    case (Right, Money) => t.rightMoneyAll
  }

  /** The totals of user `u` are those of the users counted so far. */
  ghost predicate Settled(users: Users, mined: map<int, int>, redis: map<int, Totals>, counted: set<int>)
    requires Forest(users)
  {
    && redis.Keys == users.Keys
    && forall u, s, c :: u in redis ==> Cell(redis[u], s, c) == Partial(users, mined, counted, u, s, c)
  }

  function CarryIn(nodes: int, moneys: int, c: Column): int
  {
    if c.Nodes? then nodes else moneys
  }

  /** In the middle of a walk: the users above `at` still lack the amounts being carried. */
  ghost predicate Carrying(users: Users, mined: map<int, int>, redis: map<int, Totals>, counted: set<int>,
                           at: int, nodes: int, moneys: int)
    requires Forest(users)
  {
    && redis.Keys == users.Keys
    && forall u, s, c :: u in redis ==>
         Partial(users, mined, counted, u, s, c)
         == Cell(redis[u], s, c) + if Under(users, at, u, s) then CarryIn(nodes, moneys, c) else 0
  }

  /** The users above a counted user are counted, through edges that have a side. */
  ghost predicate Closed(users: Users, counted: set<int>, except: set<int>)
  {
    && counted <= users.Keys
    && forall y :: y in counted && y !in except && HasParent(users, y) ==>
         ParentOf(users, y) in counted && SideOf(users, y).Some?
  }

  /** isStat marks the counted users that are not leaves. */
  ghost predicate Marked(users: Users, redis: map<int, Totals>, counted: set<int>)
  {
    && redis.Keys == users.Keys
    && forall u :: u in users ==> redis[u].isStat == (u in counted && !IsLeaf(users, u))
  }

  function Booked(t: Totals, s: Side, nodes: int, moneys: int): Totals
  {
    if s.Right? then t.(rightNodes := t.rightNodes + nodes, rightMoneyAll := t.rightMoneyAll + moneys)
    else t.(leftNodes := t.leftNodes + nodes, leftMoneyAll := t.leftMoneyAll + moneys)
  }

  /** Starting a walk at a user who was not counted. */
  lemma StartCarrying(users: Users, mined: map<int, int>, redis: map<int, Totals>, counted: set<int>, y: int)
    requires Forest(users) && y in users && y !in counted
    requires Settled(users, mined, redis, counted)
    ensures Carrying(users, mined, redis, counted + {y}, y, 1, Weight(mined, Money)(y))
  {
    forall u, s, c | u in redis
      ensures Partial(users, mined, counted + {y}, u, s, c)
           == Cell(redis[u], s, c) + if Under(users, y, u, s) then CarryIn(1, Weight(mined, Money)(y), c) else 0
    {
      StartCell(users, mined, redis[u], counted, y, u, s, c);
    }
  }

  lemma StartCell(users: Users, mined: map<int, int>, t: Totals, counted: set<int>, y: int, u: int, s: Side, c: Column)
    requires Forest(users) && y in users && y !in counted
    requires Cell(t, s, c) == Partial(users, mined, counted, u, s, c)
    ensures Partial(users, mined, counted + {y}, u, s, c)
         == Cell(t, s, c) + if Under(users, y, u, s) then CarryIn(1, Weight(mined, Money)(y), c) else 0
  {
    CountOneMore(users, mined, counted, y, u, s, c);
  }

  /** One step up: the parent's row takes the carried amounts, and the rest of the way still waits. */
  lemma CarryUp(users: Users, mined: map<int, int>, redis: map<int, Totals>, counted: set<int>,
                at: int, nodes: int, moneys: int, next: Totals)
    requires Forest(users) && HasParent(users, at) && SideOf(users, at).Some?
    requires Carrying(users, mined, redis, counted, at, nodes, moneys)
    requires var t := Booked(redis[ParentOf(users, at)], SideOf(users, at).value, nodes, moneys);
             next == t || next == t.(isStat := true)
    ensures Carrying(users, mined, redis[ParentOf(users, at) := next], counted, ParentOf(users, at), nodes, moneys)
  {
    NotUnderItself(users, ParentOf(users, at));
  }

  /** A user met for the first time adds its own amounts to what is carried. */
  lemma CarryMore(users: Users, mined: map<int, int>, redis: map<int, Totals>, counted: set<int>,
                  at: int, nodes: int, moneys: int)
    requires Forest(users) && at in users && at !in counted
    requires Carrying(users, mined, redis, counted, at, nodes, moneys)
    ensures Carrying(users, mined, redis, counted + {at}, at, nodes + 1, moneys + Weight(mined, Money)(at))
  {
    forall u, s, c | u in redis
      ensures Partial(users, mined, counted + {at}, u, s, c)
           == Cell(redis[u], s, c)
              + if Under(users, at, u, s) then CarryIn(nodes + 1, moneys + Weight(mined, Money)(at), c) else 0
    {
      CountOneMore(users, mined, counted, at, u, s, c);
    }
  }

  /** In the middle of a walk, which has come to the counted user `at`. */
  ghost predicate Climbing(users: Users, mined: map<int, int>, redis: map<int, Totals>, counted: set<int>,
                           at: int, nodes: int, moneys: int)
    requires Forest(users)
  {
    && at in counted && at in users
    && Carrying(users, mined, redis, counted, at, nodes, moneys)
    && Closed(users, counted, {at}) && Marked(users, redis, counted)
  }

  ghost predicate SameLeaves(users: Users, a: set<int>, b: set<int>)
  {
    forall l :: IsLeaf(users, l) ==> (l in a <==> l in b)
  }

  /** One round of the inner loop: the row above is booked, and counted if no walk has met it before. */
  lemma ClimbOne(users: Users, mined: map<int, int>, redis: map<int, Totals>, counted: set<int>,
                 at: int, nodes: int, moneys: int)
    requires Forest(users) && HasParent(users, at) && SideOf(users, at).Some?
    requires Climbing(users, mined, redis, counted, at, nodes, moneys)
    ensures var id := ParentOf(users, at);
            var next := Booked(redis[id], SideOf(users, at).value, nodes, moneys).(isStat := true);
            var first := !redis[id].isStat;
            && SameLeaves(users, if first then counted + {id} else counted, counted)
            && Climbing(users, mined, redis[id := next], if first then counted + {id} else counted, id,
                        if first then nodes + 1 else nodes,
                        if first then moneys + Weight(mined, Money)(id) else moneys)
  {
    var id := ParentOf(users, at);
    var next := Booked(redis[id], SideOf(users, at).value, nodes, moneys).(isStat := true);
    assert users[at].referrer == Some(id) && !IsLeaf(users, id);
    CarryUp(users, mined, redis, counted, at, nodes, moneys, next);
    if !redis[id].isStat {
      CarryMore(users, mined, redis[id := next], counted, id, nodes, moneys);
    }
  }

  /** Between two walks: the leaves up to `id` have been walked. */
  ghost predicate Walked(users: Users, mined: map<int, int>, redis: map<int, Totals>, counted: set<int>, id: int)
    requires Forest(users)
  {
    && Settled(users, mined, redis, counted)
    && Closed(users, counted, {}) && Marked(users, redis, counted)
    && forall l :: IsLeaf(users, l) ==> (l in counted <==> l <= id)
  }

  lemma BeginWalk(users: Users, mined: map<int, int>, redis: map<int, Totals>, counted: set<int>, id: int, leaf: int)
    requires Forest(users) && Walked(users, mined, redis, counted, id) && IsLeaf(users, leaf) && id < leaf
    ensures Climbing(users, mined, redis, counted + {leaf}, leaf, 1, Weight(mined, Money)(leaf))
  {
    StartCarrying(users, mined, redis, counted, leaf);
  }

  /** At a root nothing is carried past, and the walk is over. */
  lemma EndWalk(users: Users, mined: map<int, int>, redis: map<int, Totals>, counted: set<int>, before: set<int>,
                leaf: int, at: int, nodes: int, moneys: int)
    requires Forest(users) && Climbing(users, mined, redis, counted, at, nodes, moneys) && !HasParent(users, at)
    requires SameLeaves(users, counted, before + {leaf})
    requires forall l :: IsLeaf(users, l) ==> (l in before + {leaf} <==> l <= leaf)
    ensures Walked(users, mined, redis, counted, leaf)
  {
  }

  lemma NothingWalked(users: Users, mined: map<int, int>, redis: map<int, Totals>)
    requires Forest(users) && redis == map u | u in users :: NOTHING
    ensures Walked(users, mined, redis, {}, 0)
  {
    forall u, s, c ensures Partial(users, mined, {}, u, s, c) == 0 {
      assert Below(users, u, s) * {} == {};
    }
  }

  /** The leaves that are still to be walked. */
  ghost function LeavesAfter(users: Users, id: int): set<int>
  {
    set u | u in users && IsLeaf(users, u) && id < u
  }

  lemma OneLeafLess(users: Users, id: int, leaf: int)
    requires leaf in LeavesAfter(users, id) && forall l :: l in LeavesAfter(users, id) ==> leaf <= l
    ensures LeavesAfter(users, id) - {leaf} == LeavesAfter(users, leaf)
    ensures IsLeaf(users, leaf) && id < leaf && forall l :: IsLeaf(users, l) && id < l ==> leaf <= l
  {
    forall l | IsLeaf(users, l) && id < l ensures leaf <= l {
      assert l in LeavesAfter(users, id);
    }
  }

  /** When every leaf has been walked, every total is that of the whole subtree, and no edge lacks a side. */
  lemma AllWalked(users: Users, mined: map<int, int>, redis: map<int, Totals>, counted: set<int>, id: int)
    requires Forest(users) && Walked(users, mined, redis, counted, id)
    requires LeavesAfter(users, id) == {}
    ensures EdgesDefined(users)
    ensures forall u :: u in users ==> redis[u].isStat == !IsLeaf(users, u)
    ensures redis.Keys == users.Keys
    ensures forall u, s, c :: u in redis ==> Cell(redis[u], s, c) == Total(users, mined, u, s, c)
  {
    forall l | IsLeaf(users, l) ensures l in counted {
      assert l !in LeavesAfter(users, id);
    }
    EverybodyCounted(users, counted);
    forall u, s, c ensures Partial(users, mined, counted, u, s, c) == Total(users, mined, u, s, c) {
      CountedAll(users, mined, counted, u, s, c);
    }
  }

  /** When every leaf has been walked, everybody has been counted. */
  lemma EverybodyCounted(users: Users, counted: set<int>)
    requires Forest(users) && Closed(users, counted, {})
    requires forall v :: IsLeaf(users, v) ==> v in counted
    ensures counted == users.Keys
  {
    var bound := LargestId(users.Keys);
    forall u | u in users ensures u in counted {
      LeavesReachEverybody(users, counted, bound, u);
    }
  }

  lemma LargestId(s: set<int>) returns (bound: int)
    ensures forall x :: x in s ==> x <= bound
    decreases |s|
  {
    if s == {} {
      bound := 0;
    } else {
      var x := AnyOf(s);
      bound := LargestId(s - {x});
      assert forall y :: y in s ==> y == x || y in s - {x};
      bound := if bound < x then x else bound;
    }
  }

  lemma {:induction false} LeastOf(s: set<int>) returns (m: int)
    requires s != {}
    ensures m in s && forall x :: x in s ==> m <= x
    decreases |s|
  {
    m := AnyOf(s);
    if s != {m} {
      assert s - {m} != {} by { assert s <= {m} ==> s == {m}; }
      var r := LeastOf(s - {m});
      assert forall y :: y in s ==> y == m || y in s - {m};
      m := if r < m then r else m;
    }
  }

  class RewardStat {
    const users: Users
    const mined: map<int, int>
    var redis: map<int, Totals>
    var leafNodes: set<int>

    /** clearTempData and todayMoney: zeroed totals, and the users without a child as leaves. */
    constructor (users: Users, mined: map<int, int>)
      ensures this.users == users && this.mined == mined
      ensures Prepared()
    {
      this.users, this.mined := users, mined;
      redis := map u | u in users :: NOTHING;
      leafNodes := set u | u in users && IsLeaf(users, u);
    }

    ghost predicate Prepared()
      reads this
    {
      && redis == (map u | u in users :: NOTHING)
      && leafNodes == set u | u in users && IsLeaf(users, u)
    }

    /** Every total is that of the whole subtree on its side. */
    ghost predicate Complete()
      reads this
    {
      && Forest(users)
      && redis.Keys == users.Keys
      && forall u, s, c :: u in redis ==> Cell(redis[u], s, c) == Total(users, mined, u, s, c)
    }

    method NextLeafNode(id: int) returns (next: Option<int>)
      ensures next.Some? ==> next.value in leafNodes && id < next.value
                             && forall l :: l in leafNodes && id < l ==> next.value <= l
      ensures next.None? ==> forall l :: l in leafNodes ==> l <= id
    {
      var later := set l | l in leafNodes && id < l;
      if later == {} {
        assert forall l :: l in leafNodes ==> l !in later ==> l <= id;
        return None;
      }
      ghost var least := LeastOf(later);
      var m :| m in later && forall l :: l in later ==> m <= l;
      assert forall l :: l in leafNodes && id < l ==> l in later;
      return Some(m);
    }

    /** departMoney. It ends normally exactly when no referral edge lacks the data that decides its
        side, and then every total is the sum over the whole subtree on that side. */
    method DepartMoney() returns (ok: bool)
      requires Forest(users) && Prepared()
      modifies this
      ensures ok <==> EdgesDefined(users)
      ensures ok ==> Complete() && leafNodes == {}
      ensures ok ==> forall u :: u in users ==> redis[u].isStat == !IsLeaf(users, u)
    {
      var id := 0;
      ghost var counted: set<int> := {};
      NothingWalked(users, mined, redis);
      assert leafNodes == LeavesAfter(users, 0);
      while true
        invariant Walked(users, mined, redis, counted, id)
        invariant leafNodes == LeavesAfter(users, id)
        decreases |leafNodes|
      {
        var leaf := NextLeafNode(id);
        if leaf.None? || leaf.value !in redis {
          break;
        }
        OneLeafLess(users, id, leaf.value);
        var walked;
        walked, counted := WalkLeaf(leaf.value, id, counted);
        id := leaf.value;
        if !walked {
          return false;
        }
        leafNodes := leafNodes - {id};
      }
      AllWalked(users, mined, redis, counted, id);
      ok := true;
    }

    /** The walk from one leaf. */
    method WalkLeaf(leaf: int, ghost last: int, ghost counted: set<int>) returns (ok: bool, ghost nowCounted: set<int>)
      requires Forest(users) && Walked(users, mined, redis, counted, last)
      requires IsLeaf(users, leaf) && last < leaf && forall l :: IsLeaf(users, l) && last < l ==> leaf <= l
      modifies this`redis
      ensures !ok ==> !EdgesDefined(users)
      ensures ok ==> Walked(users, mined, redis, nowCounted, leaf)
    {
      BeginWalk(users, mined, redis, counted, last, leaf);
      ghost var root;
      var nodes, moneys;
      ok, nowCounted, root, nodes, moneys := WalkUp(leaf, counted + {leaf});
      if ok {
        EndWalk(users, mined, redis, nowCounted, counted, leaf, root, nodes, moneys);
      }
    }

    /** The inner loop: from a leaf up to its root, booking what is carried on the right side of every
        row passed and picking up the rows that no earlier walk has met. */
    method WalkUp(leaf: int, ghost counted: set<int>)
      returns (ok: bool, ghost nowCounted: set<int>, ghost at: int, nodes: int, moneys: int)
      requires Forest(users) && leaf in users
      requires Climbing(users, mined, redis, counted, leaf, 1, Weight(mined, Money)(leaf))
      modifies this`redis
      ensures !ok ==> !EdgesDefined(users)
      ensures ok ==> Climbing(users, mined, redis, nowCounted, at, nodes, moneys) && !HasParent(users, at)
      ensures ok ==> SameLeaves(users, nowCounted, counted)
    {
      var row := users[leaf];
      var referrer, invite, inviteCode := row.referrer, row.invite, row.inviteCode;
      nodes, moneys := 1, if leaf in mined then mined[leaf] else 0;
      at, nowCounted := leaf, counted;
      while true
        invariant Climbing(users, mined, redis, nowCounted, at, nodes, moneys)
        invariant referrer == users[at].referrer && invite == users[at].invite && inviteCode == users[at].inviteCode
        invariant SameLeaves(users, nowCounted, counted)
        decreases at
      {
        if referrer.None? || referrer.value !in redis {
          ok := true;
          return;
        }
        var id := referrer.value;
        assert HasParent(users, at);
        if invite.None? || (id == invite.value && users[id].rightInvite.None?) {
          ok := false;
          return;
        }
        nodes, moneys, nowCounted := BookRow(at, nowCounted, id, invite.value, inviteCode, nodes, moneys);
        referrer, invite, inviteCode := users[id].referrer, users[id].invite, users[id].inviteCode;
        at := id;
      }
    }

    /** One round of the inner loop: what is carried is booked on the right or on the left of the row of
        user `id`; a row that no walk has met adds its own node and money to what is carried on. */
    method BookRow(ghost at: int, ghost counted: set<int>, id: int, invite: int, inviteCode: Option<string>,
                   nodes: int, moneys: int)
      returns (nextNodes: int, nextMoneys: int, ghost nowCounted: set<int>)
      requires Forest(users) && Climbing(users, mined, redis, counted, at, nodes, moneys)
      requires HasParent(users, at) && id == ParentOf(users, at) && SideOf(users, at).Some?
      requires users[at].invite == Some(invite) && inviteCode == users[at].inviteCode
      modifies this`redis
      ensures Climbing(users, mined, redis, nowCounted, id, nextNodes, nextMoneys)
      ensures SameLeaves(users, nowCounted, counted)
    {
      var next := redis[id];
      ClimbOne(users, mined, redis, counted, at, nodes, moneys);
      ghost var first, booked := !next.isStat, Booked(next, SideOf(users, at).value, nodes, moneys).(isStat := true);
      if id == invite && SameCode(users[id].rightInvite.value, inviteCode) {
        next := next.(rightNodes := next.rightNodes + nodes, rightMoneyAll := next.rightMoneyAll + moneys);
      } else {
        next := next.(leftNodes := next.leftNodes + nodes, leftMoneyAll := next.leftMoneyAll + moneys);
      }
      nextNodes, nextMoneys, nowCounted := nodes, moneys, counted;
      if !next.isStat {
        nextNodes := nodes + 1;
        nextMoneys := moneys + if id in mined then mined[id] else 0;
        nowCounted := counted + {id};
        next := next.(isStat := true);
      }
      assert next == booked && nowCounted == (if first then counted + {id} else counted);
      assert nextMoneys == if first then moneys + Weight(mined, Money)(id) else moneys;
      redis := redis[id := next];
    }
  }

  /** What an ended settlement holds, read off the table: on each side the number of users who hang there
      and the sum of what they mined. */
  lemma CellsByTable(stat: RewardStat, u: int)
    requires stat.Complete() && EdgesDefined(stat.users) && u in stat.users
    ensures stat.redis[u].rightNodes == SetSum(HangingOn(stat.users, u, true), Weight(stat.mined, Nodes))
    ensures stat.redis[u].leftNodes == SetSum(HangingOn(stat.users, u, false), Weight(stat.mined, Nodes))
    ensures stat.redis[u].rightMoneyAll == SetSum(HangingOn(stat.users, u, true), Weight(stat.mined, Money))
    ensures stat.redis[u].leftMoneyAll == SetSum(HangingOn(stat.users, u, false), Weight(stat.mined, Money))
  {
    BelowByTable(stat.users, u);
    assert Cell(stat.redis[u], Right, Nodes) == Total(stat.users, stat.mined, u, Right, Nodes);
    assert Cell(stat.redis[u], Left, Nodes) == Total(stat.users, stat.mined, u, Left, Nodes);
    assert Cell(stat.redis[u], Right, Money) == Total(stat.users, stat.mined, u, Right, Money);
    assert Cell(stat.redis[u], Left, Money) == Total(stat.users, stat.mined, u, Left, Money);
  }

  /** User 1 invited user 2 with the right code and user 3 with another; they mined 10 and 4. */
  function Family(): Users
  {
    map[1 := User(None, None, None, Some("R")),
        2 := User(Some(1), Some(1), Some("r"), Some("x")),
        3 := User(Some(1), Some(1), Some("L"), Some("y"))]
  }

  lemma FamilySides(stat: RewardStat)
    requires stat.Complete() && stat.users == Family() && stat.mined == map[2 := 10, 3 := 4]
    ensures EdgesDefined(stat.users)
    ensures stat.redis[1].rightMoneyAll == 10 && stat.redis[1].rightNodes == 1
    ensures stat.redis[1].leftMoneyAll == 4 && stat.redis[1].leftNodes == 1
  {
    var users := Family();
    assert SideOnFile(users, 2) && SideOnFile(users, 3);
    assert SameLetter('R', 'r') && !SameLetter('R', 'L');
    assert InvitedRight(users, 2) && !InvitedRight(users, 3) by {
      assert "R"[0] == 'R' && "L"[0] == 'L';
    }
    SideByTable(users, 2);
    SideByTable(users, 3);
    assert HangingOn(users, 1, true) == {2} by {
      assert forall y :: y in HangingOn(users, 1, true) <==> y == 2;
    }
    assert HangingOn(users, 1, false) == {3} by {
      assert forall y :: y in HangingOn(users, 1, false) <==> y == 3;
    }
    CellsByTable(stat, 1);
    forall c
      ensures SetSum({2}, Weight(stat.mined, c)) == Weight(stat.mined, c)(2)
      ensures SetSum({3}, Weight(stat.mined, c)) == Weight(stat.mined, c)(3)
    {
      SetSumOne(2, Weight(stat.mined, c));
      SetSumOne(3, Weight(stat.mined, c));
    }
  }
}
