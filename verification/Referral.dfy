/** The referral forest behind StatService: user rows, the side of a referral edge, and the totals
    that a settlement is meant to compute. */
module Referral {
  import opened Sums
  import opened Text

  /** The columns of t_user that the settlement reads. */
  datatype User = User(referrer: Option<int>, invite: Option<int>, inviteCode: Option<string>,
                       rightInvite: Option<string>)

  datatype Side = Left | Right

  /** The two quantities that are totalled per side: referred users and mined money. */
  datatype Column = Nodes | Money

  type Users = map<int, User>

  /** Ids come from an auto-increment column and a user is registered after the user above. */
  ghost predicate Forest(users: Users)
  {
    forall u :: u in users ==> 0 < u && (users[u].referrer.Some? ==> users[u].referrer.value < u)
  }

  predicate HasParent(users: Users, u: int)
  {
    u in users && users[u].referrer.Some? && users[u].referrer.value in users
  }

  function ParentOf(users: Users, u: int): int
    requires HasParent(users, u)
  {
    users[u].referrer.value
  }

  /** A user that nobody names as referrer: the query that fills t_leaf_node. */
  predicate IsLeaf(users: Users, u: int)
  {
    u in users && forall v :: v in users ==> users[v].referrer != Some(u)
  }

  /** A null code is equal to none. */
  predicate SameCode(code: string, inviteCode: Option<string>)
  {
    inviteCode.Some? && EqualsIgnoreCase(code, inviteCode.value)
  }

  /** The side on which `u` hangs below the user above; None when working it out dereferences null. */
  function SideOf(users: Users, u: int): Option<Side>
    requires HasParent(users, u)
  {
    var row := users[u];
    if row.invite.None? then None
    else if row.referrer.value != row.invite.value then Some(Left)
    else
      match users[row.referrer.value].rightInvite
      case None => None
      case Some(code) => Some(if SameCode(code, row.inviteCode) then Right else Left)
  }

  /** `y` lies strictly below `u`, on side `s` of `u`. */
  ghost predicate Under(users: Users, y: int, u: int, s: Side)
    requires Forest(users)
    decreases y
  {
    && HasParent(users, y)
    && (|| (ParentOf(users, y) == u && SideOf(users, y) == Some(s))
        || Under(users, ParentOf(users, y), u, s))
  }

  ghost function Below(users: Users, u: int, s: Side): set<int>
    requires Forest(users)
  {
    set y | y in users && Under(users, y, u, s)
  }

  ghost function Depth(users: Users, y: int): nat
    requires Forest(users)
    decreases y
  {
    if HasParent(users, y) then 1 + Depth(users, ParentOf(users, y)) else 0
  }

  /** Every edge on the way up from `y` has a side. */
  ghost predicate ChainDefined(users: Users, y: int)
    requires Forest(users)
    decreases y
  {
    HasParent(users, y) ==> SideOf(users, y).Some? && ChainDefined(users, ParentOf(users, y))
  }

  ghost predicate EdgesDefined(users: Users)
  {
    forall u :: HasParent(users, u) ==> SideOf(users, u).Some?
  }

  /** What one user contributes to a column. */
  function Weight(mined: map<int, int>, c: Column): int -> int
  {
    u => if c.Nodes? then 1 else if u in mined then mined[u] else 0
  }

  /** The reference value of a cell: the whole strict subtree on that side, each user once. */
  ghost function Total(users: Users, mined: map<int, int>, u: int, s: Side, c: Column): int
    requires Forest(users)
  {
    SetSum(Below(users, u, s), Weight(mined, c))
  }

  /** The part of Total contributed by the users in `counted`. */
  ghost function Partial(users: Users, mined: map<int, int>, counted: set<int>, u: int, s: Side, c: Column): int
    requires Forest(users)
  {
    SetSum(Below(users, u, s) * counted, Weight(mined, c))
  }

  lemma {:induction false} UnderIsBelow(users: Users, y: int, u: int, s: Side)
    requires Forest(users) && Under(users, y, u, s)
    ensures u in users && u < y
    decreases y
  {
    if ParentOf(users, y) != u {
      UnderIsBelow(users, ParentOf(users, y), u, s);
    }
  }

  lemma NotUnderItself(users: Users, u: int)
    requires Forest(users)
    ensures forall s :: !Under(users, u, u, s)
  {
    forall s ensures !Under(users, u, u, s) {
      if Under(users, u, u, s) {
        UnderIsBelow(users, u, u, s);
      }
    }
  }

  /** Counting one more user raises exactly the cells that the user lies under. */
  lemma CountOneMore(users: Users, mined: map<int, int>, counted: set<int>, y: int, u: int, s: Side, c: Column)
    requires Forest(users) && y in users && y !in counted
    ensures Partial(users, mined, counted + {y}, u, s, c)
         == Partial(users, mined, counted, u, s, c) + if Under(users, y, u, s) then Weight(mined, c)(y) else 0
  {
    var below := Below(users, u, s);
    if Under(users, y, u, s) {
      assert below * (counted + {y}) == below * counted + {y};
      SetSumAdd(below * counted, y, Weight(mined, c));
    } else {
      assert below * (counted + {y}) == below * counted;
    }
  }

  lemma CountedAll(users: Users, mined: map<int, int>, counted: set<int>, u: int, s: Side, c: Column)
    requires Forest(users) && counted == users.Keys
    ensures Partial(users, mined, counted, u, s, c) == Total(users, mined, u, s, c)
  {
    assert Below(users, u, s) * counted == Below(users, u, s);
  }

  /** A set that holds every leaf and, with a user, the user above, holds everybody. */
  lemma {:induction false} LeavesReachEverybody(users: Users, counted: set<int>, bound: int, u: int)
    requires Forest(users) && u in users
    requires forall v :: v in users ==> v <= bound
    requires forall v :: IsLeaf(users, v) ==> v in counted
    requires forall y :: y in counted && HasParent(users, y) ==> ParentOf(users, y) in counted
    ensures u in counted
    decreases bound - u
  {
    if !IsLeaf(users, u) {
      var v :| v in users && users[v].referrer == Some(u);
      LeavesReachEverybody(users, counted, bound, v);
      assert ParentOf(users, v) == u;
    }
  }

  lemma {:induction false} ChainsFollow(users: Users, y: int)
    requires Forest(users) && EdgesDefined(users)
    ensures ChainDefined(users, y)
    decreases y
  {
    if HasParent(users, y) {
      ChainsFollow(users, ParentOf(users, y));
    }
  }

  /** A new user below an existing one changes nobody's place. */
  lemma {:induction false} RegisteringKeepsPlaces(users: Users, id: int, row: User, y: int, u: int, s: Side)
    requires Forest(users) && Forest(users[id := row])
    requires forall v :: v in users ==> v < id
    requires forall v :: v in users && users[v].referrer.Some? ==> users[v].referrer.value in users
    requires y in users
    ensures Under(users[id := row], y, u, s) == Under(users, y, u, s)
    decreases y
  {
    if HasParent(users, y) {
      RegisteringKeepsPlaces(users, id, row, ParentOf(users, y), u, s);
    }
  }

  // ---- the sides, read off the table

  /** The columns put `y` on the right of its referrer: it was invited by the referrer itself, with the
      referrer's right code up to case. */
  predicate InvitedRight(users: Users, y: int)
    requires HasParent(users, y)
  {
    var row, above := users[y], users[users[y].referrer.value];
    && row.invite == row.referrer
    && row.inviteCode.Some? && above.rightInvite.Some? && SameLetters(above.rightInvite.value, row.inviteCode.value)
  }

  /** What the columns must hold for that to be decided: an inviter, and a right code where the referrer is
      the inviter. */
  predicate SideOnFile(users: Users, y: int)
    requires HasParent(users, y)
  {
    users[y].invite.Some? && (users[y].invite == users[y].referrer ==> users[users[y].referrer.value].rightInvite.Some?)
  }

  lemma SideByTable(users: Users, y: int)
    requires HasParent(users, y)
    ensures SideOf(users, y).Some? <==> SideOnFile(users, y)
    ensures SideOf(users, y) == Some(Right) <==> SideOnFile(users, y) && InvitedRight(users, y)
    ensures SideOf(users, y) == Some(Left) <==> SideOnFile(users, y) && !InvitedRight(users, y)
  {
    var row, above := users[y], users[users[y].referrer.value];
    if above.rightInvite.Some? && row.inviteCode.Some? {
      EqualLetterByLetter(above.rightInvite.value, row.inviteCode.value);
    }
  }

  /** A child of `p` lies on the right of `p`, on the left, or on no side, exactly as the columns say. */
  lemma ChildSides(users: Users, y: int, p: int)
    requires Forest(users) && HasParent(users, y) && users[y].referrer == Some(p)
    ensures y in Below(users, p, Right) <==> SideOnFile(users, y) && InvitedRight(users, y)
    ensures y in Below(users, p, Left) <==> SideOnFile(users, y) && !InvitedRight(users, y)
  {
    SideByTable(users, y);
    NotUnderItself(users, p);
    assert ParentOf(users, y) == p;
    assert Under(users, y, p, Right) <==> SideOf(users, y) == Some(Right);
    assert Under(users, y, p, Left) <==> SideOf(users, y) == Some(Left);
  }

  /** Anybody else lies on the side of `u` on which the user above lies. */
  lemma DescendantSides(users: Users, y: int, u: int, s: Side)
    requires Forest(users) && HasParent(users, y) && users[y].referrer != Some(u)
    ensures y in Below(users, u, s) <==> users[y].referrer.value in Below(users, u, s)
  {
  }

  /** `y` hangs below `u`, on the right or on the left: the side of the child of `u` on the way up from `y`. */
  ghost predicate Hangs(users: Users, y: int, u: int, right: bool)
    requires Forest(users)
    decreases y
  {
    && HasParent(users, y)
    && (|| (users[y].referrer == Some(u) && InvitedRight(users, y) == right)
        || Hangs(users, users[y].referrer.value, u, right))
  }

  ghost function HangingOn(users: Users, u: int, right: bool): set<int>
    requires Forest(users)
  {
    set y | y in users && Hangs(users, y, u, right)
  }

  lemma {:induction false} UnderByTable(users: Users, y: int, u: int)
    requires Forest(users) && ChainDefined(users, y)
    ensures Under(users, y, u, Right) <==> Hangs(users, y, u, true)
    ensures Under(users, y, u, Left) <==> Hangs(users, y, u, false)
    decreases y
  {
    if HasParent(users, y) {
      SideByTable(users, y);
      UnderByTable(users, ParentOf(users, y), u);
    }
  }

  /** Where all sides are on file, the two sides of a user are those that the table shows. */
  lemma BelowByTable(users: Users, u: int)
    requires Forest(users) && EdgesDefined(users)
    ensures Below(users, u, Right) == HangingOn(users, u, true)
    ensures Below(users, u, Left) == HangingOn(users, u, false)
  {
    forall y
      ensures y in Below(users, u, Right) <==> y in HangingOn(users, u, true)
      ensures y in Below(users, u, Left) <==> y in HangingOn(users, u, false)
    {
      ChainsFollow(users, y);
      UnderByTable(users, y, u);
    }
  }

  // ---- the totals of all users together

  ghost function BothSides(users: Users, mined: map<int, int>, counted: set<int>, c: Column): int -> int
    requires Forest(users)
  {
    u => Partial(users, mined, counted, u, Left, c) + Partial(users, mined, counted, u, Right, c)
  }

  ghost function TimesAbove(users: Users, y: int): int -> int
    requires Forest(users)
  {
    u => (if Under(users, y, u, Left) then 1 else 0) + (if Under(users, y, u, Right) then 1 else 0)
  }

  ghost function TimesParent(users: Users, y: int): int -> int
  {
    u => if HasParent(users, y) && ParentOf(users, y) == u then 1 else 0
  }

  ghost function DepthWeighted(users: Users, mined: map<int, int>, c: Column): int -> int
    requires Forest(users)
  {
    y => Weight(mined, c)(y) * Depth(users, y)
  }

  /** A user lies under as many users as its depth. */
  lemma {:induction false} AncestorsAreDepth(users: Users, y: int)
    requires Forest(users) && ChainDefined(users, y)
    ensures SetSum(users.Keys, TimesAbove(users, y)) == Depth(users, y)
    decreases y
  {
    if HasParent(users, y) {
      var p := ParentOf(users, y);
      AncestorsAreDepth(users, p);
      NotUnderItself(users, p);
      SetSumPlus(users.Keys, TimesParent(users, y), TimesAbove(users, p), TimesAbove(users, y));
      SetSumSupport(users.Keys, {p}, TimesParent(users, y));
      SetSumSplit({p}, p, TimesParent(users, y));
      assert {p} - {p} == {};
    } else {
      SetSumSupport(users.Keys, {}, TimesAbove(users, y));
    }
  }

  lemma BothSidesGrow(users: Users, mined: map<int, int>, counted: set<int>, y: int, c: Column, u: int)
    requires Forest(users) && y in users && y !in counted
    ensures BothSides(users, mined, counted + {y}, c)(u)
         == BothSides(users, mined, counted, c)(u) + Scaled(Weight(mined, c)(y), TimesAbove(users, y))(u)
  {
    CountOneMore(users, mined, counted, y, u, Left, c);
    CountOneMore(users, mined, counted, y, u, Right, c);
    var w, n := Weight(mined, c)(y), TimesAbove(users, y)(u);
    assert n == 0 || n == 1 || n == 2;
    assert w * 0 == 0 && w * 1 == w && w * 2 == w + w;
  }

  /** Counting one more user, the grand total grows by the user's weight times its depth. */
  lemma GrandTotalGrows(users: Users, mined: map<int, int>, counted: set<int>, y: int, c: Column)
    requires Forest(users) && EdgesDefined(users) && y in users && y !in counted
    ensures SetSum(users.Keys, BothSides(users, mined, counted + {y}, c))
         == SetSum(users.Keys, BothSides(users, mined, counted, c)) + DepthWeighted(users, mined, c)(y)
  {
    var w := Weight(mined, c)(y);
    var above := TimesAbove(users, y);
    forall u
      ensures BothSides(users, mined, counted + {y}, c)(u)
           == BothSides(users, mined, counted, c)(u) + Scaled(w, above)(u)
    {
      BothSidesGrow(users, mined, counted, y, c, u);
    }
    SetSumPlus(users.Keys, BothSides(users, mined, counted, c), Scaled(w, above),
               BothSides(users, mined, counted + {y}, c));
    SetSumScaled(users.Keys, w, above);
    ChainsFollow(users, y);
    AncestorsAreDepth(users, y);
  }

  lemma {:induction false} GrandTotalOf(users: Users, mined: map<int, int>, counted: set<int>, c: Column)
    requires Forest(users) && EdgesDefined(users) && counted <= users.Keys
    ensures SetSum(users.Keys, BothSides(users, mined, counted, c)) == SetSum(counted, DepthWeighted(users, mined, c))
    decreases |counted|
  {
    if counted != {} {
      var y := AnyOf(counted);
      assert counted - {y} + {y} == counted;
      GrandTotalOf(users, mined, counted - {y}, c);
      GrandTotalGrows(users, mined, counted - {y}, y, c);
      SetSumSplit(counted, y, DepthWeighted(users, mined, c));
    } else {
      forall u, s ensures Partial(users, mined, {}, u, s, c) == 0 {
        assert Below(users, u, s) * {} == {};
      }
      SetSumSupport(users.Keys, {}, BothSides(users, mined, {}, c));
    }
  }

  /** Summed over all users, the left and right totals hold each user's weight once per ancestor. */
  lemma GrandTotal(users: Users, mined: map<int, int>, c: Column, both: int -> int)
    requires Forest(users) && EdgesDefined(users)
    requires forall u :: u in users ==> both(u) == Total(users, mined, u, Left, c) + Total(users, mined, u, Right, c)
    ensures SetSum(users.Keys, both) == SetSum(users.Keys, DepthWeighted(users, mined, c))
  {
    GrandTotalOf(users, mined, users.Keys, c);
    forall u | u in users ensures both(u) == BothSides(users, mined, users.Keys, c)(u) {
      CountedAll(users, mined, users.Keys, u, Left, c);
      CountedAll(users, mined, users.Keys, u, Right, c);
    }
    SetSumSame(users.Keys, both, BothSides(users, mined, users.Keys, c));
  }
}
