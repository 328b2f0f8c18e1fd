/** UserService.findLeft and findLeft2: the leftmost user below a user, by recursion and by a loop. */
module LeftSearch {
  import opened Sums

  /** The column of t_user that the search follows; the table may hold anything. */
  datatype Row = Row(leftChild: Option<int>)

  type Table = map<int, Row>

  datatype Outcome = Found(id: int) | NoUser(id: int) | WrongOrder(id: int, leftChild: int)

  /** The ids of the table above `id`: what is left to search, since every link must go up. */
  ghost function Above(table: Table, id: int): set<int>
  {
    set u | u in table && id < u
  }

  lemma LinkGoesUp(table: Table, id: int, child: int)
    requires id < child && child in table
    ensures Above(table, child) < Above(table, id)
  {
    assert child in Above(table, id) && child !in Above(table, child);
    assert forall u :: u in Above(table, child) ==> u in Above(table, id);
  }

  /** findLeft. */
  function FindLeft(table: Table, userId: int): Outcome
    decreases Above(table, userId), userId in table
  {
    if userId !in table then NoUser(userId)
    else if table[userId].leftChild.None? then Found(userId)
    else
      var child := table[userId].leftChild.value;
      if userId >= child then WrongOrder(userId, child)
      else if child !in table then NoUser(child)
      else
        LinkGoesUp(table, userId, child);
        FindLeft(table, child)
  }

  /** findLeft2: the loop ends on every table, and agrees with the recursion, errors included. */
  method FindLeft2(table: Table, userId: int) returns (outcome: Outcome)
    ensures outcome == FindLeft(table, userId)
  {
    var id := userId;
    while true
      invariant FindLeft(table, id) == FindLeft(table, userId)
      decreases Above(table, id), id in table
    {
      if id !in table {
        return NoUser(id);
      }
      if table[id].leftChild.None? {
        return Found(id);
      }
      var child := table[id].leftChild.value;
      if id >= child {
        return WrongOrder(id, child);
      }
      if child in table {
        LinkGoesUp(table, id, child);
      } else {
        assert Above(table, child) <= Above(table, id);
      }
      id := child;
    }
  }

  /** A path of left links between users of the table, each going to a larger id. */
  ghost predicate LeftPath(table: Table, path: seq<int>)
  {
    && path != []
    && (forall i :: 0 <= i < |path| ==> path[i] in table)
    && (forall i :: 0 <= i < |path| - 1 ==> table[path[i]].leftChild == Some(path[i + 1]) && path[i] < path[i + 1])
  }

  /** How a search may end at the last user of a path. */
  ghost predicate EndsWith(table: Table, last: int, outcome: Outcome)
    requires last in table
  {
    match table[last].leftChild
    case None => outcome == Found(last)
    case Some(child) =>
      if last >= child then outcome == WrongOrder(last, child)
      else child !in table && outcome == NoUser(child)
  }

  /** The search follows the increasing left links from the start as far as they go; what it answers is
      decided by the user where they stop. */
  lemma {:induction false} SearchFollowsPath(table: Table, userId: int) returns (path: seq<int>)
    requires userId in table
    ensures LeftPath(table, path) && path[0] == userId
    ensures EndsWith(table, path[|path| - 1], FindLeft(table, userId))
    decreases Above(table, userId)
  {
    path := [userId];
    if table[userId].leftChild.Some? {
      var child := table[userId].leftChild.value;
      if userId < child && child in table {
        LinkGoesUp(table, userId, child);
        var rest := SearchFollowsPath(table, child);
        path := [userId] + rest;
      }
    }
  }

  /** There is one such path, so every way of searching that ends properly gives the same answer. */
  lemma {:induction false} OneAnswer(table: Table, path: seq<int>, outcome: Outcome)
    requires LeftPath(table, path) && EndsWith(table, path[|path| - 1], outcome)
    ensures FindLeft(table, path[0]) == outcome
    decreases |path|
  {
    if |path| > 1 {
      OneAnswer(table, path[1..], outcome);
    }
  }
}
